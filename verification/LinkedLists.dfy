/** Lists threaded through the objects themselves: the first word of a free object holds
    the address of the next one, and address 0 ends a list. */
module LinkedLists {
  import opened Spans
  import opened Cells

  type Links = map<Addr, Addr>

  const Null: Addr := 0
  const AddressLimit: int := 0x1_0000_0000_0000_0000

  /** From `head` the links run through exactly the objects of `q`, then end. */
  ghost predicate Chain(links: Links, head: Addr, q: seq<Addr>)
    decreases |q|
  {
    if q == [] then head == Null
    else head == q[0] && head != Null && head in links && Chain(links, links[head], q[1..])
  }

  lemma {:induction false} ChainUnique(links: Links, head: Addr, q: seq<Addr>, r: seq<Addr>)
    requires Chain(links, head, q) && Chain(links, head, r)
    ensures q == r
    decreases |q|
  {
    if q != [] && r != [] {
      ChainUnique(links, links[head], q[1..], r[1..]);
      assert q == [q[0]] + q[1..] && r == [r[0]] + r[1..];
    }
  }

  /** The links from the `a`-th object on. */
  lemma {:induction false} ChainFrom(links: Links, head: Addr, q: seq<Addr>, a: int)
    requires Chain(links, head, q) && 0 <= a <= |q|
    ensures Chain(links, if a < |q| then q[a] else Null, q[a..])
    ensures a > 0 ==> q[a - 1] in links && links[q[a - 1]] == (if a < |q| then q[a] else Null)
    decreases |q|
  {
    if a > 0 {
      ChainFrom(links, links[head], q[1..], a - 1);
      assert q[1..][a - 1..] == q[a..];
      if a == 1 { assert q[1..] != [] ==> links[head] == q[1]; }
    }
  }

  /** A list that ends has no object twice. */
  lemma ChainDistinct(links: Links, head: Addr, q: seq<Addr>)
    requires Chain(links, head, q)
    ensures forall a, b :: 0 <= a < b < |q| ==> q[a] != q[b]
    ensures Null !in q
  {
    forall a, b | 0 <= a < b < |q| ensures q[a] != q[b] {
      ChainFrom(links, head, q, a);
      ChainFrom(links, head, q, b);
      if q[a] == q[b] { ChainUnique(links, q[a], q[a..], q[b..]); }
    }
    forall a | 0 <= a < |q| ensures q[a] != Null { ChainFrom(links, head, q, a); }
  }

  /** Writing outside a list does not change it. */
  lemma {:induction false} ChainFrame(links: Links, links': Links, head: Addr, q: seq<Addr>)
    requires Chain(links, head, q)
    requires forall o :: o in q && o in links ==> o in links' && links'[o] == links[o]
    ensures Chain(links', head, q)
    decreases |q|
  {
    if q != [] {
      assert q[0] in q && forall o :: o in q[1..] ==> o in q;
      ChainFrame(links, links', links[head], q[1..]);
    }
  }

  /** Two lists, the last object of the first made to point at the second. */
  lemma {:induction false} ChainJoin(links: Links, head: Addr, q: seq<Addr>, head2: Addr, r: seq<Addr>)
    requires Chain(links, head, q) && Chain(links, head2, r) && q != []
    requires forall o :: o in q ==> o !in r
    ensures Chain(links[q[|q| - 1] := head2], head, q + r)
    decreases |q|
  {
    var links' := links[q[|q| - 1] := head2];
    assert q[|q| - 1] in q;
    if |q| == 1 {
      ChainFrame(links, links', head2, r);
      assert (q + r)[1..] == r;
    } else {
      ChainDistinct(links, head, q);
      ChainJoin(links, links[head], q[1..], head2, r);
      assert (q + r)[1..] == q[1..] + r;
      assert q[1..][|q| - 2] == q[|q| - 1];
    }
  }

  /** A list cut after its first `n` objects. */
  lemma {:induction false} ChainCut(links: Links, head: Addr, q: seq<Addr>, n: int)
    requires Chain(links, head, q) && 1 <= n <= |q|
    ensures Chain(links[q[n - 1] := Null], head, q[..n])
    ensures Chain(links[q[n - 1] := Null], if n < |q| then q[n] else Null, q[n..])
    decreases |q|
  {
    var links' := links[q[n - 1] := Null];
    ChainDistinct(links, head, q);
    ChainFrom(links, head, q, n);
    assert q[n - 1] !in q[n..];
    ChainFrame(links, links', if n < |q| then q[n] else Null, q[n..]);
    if n == 1 {
      assert q[..1][1..] == [];
    } else {
      ChainCut(links, links[head], q[1..], n - 1);
      assert q[1..][n - 2] == q[n - 1] && q[..n][1..] == q[1..][..n - 1];
    }
  }

  /** Only links of objects of `q` differ. */
  ghost predicate OnlyLinks(was: Links, links: Links, q: seq<Addr>) {
    forall o :: o !in q && o in was ==> o in links && links[o] == was[o]
  }

  /** Object `i` of `q` points at the next. */
  ghost predicate PointsOn(links: Links, q: seq<Addr>, i: int)
    requires 0 <= i < |q| - 1
  {
    q[i] in links && links[q[i]] == q[i + 1]
  }

  /** The first `n` objects of `q` are linked, but for the link of the last. */
  ghost predicate Trail(links: Links, q: seq<Addr>, n: int)
    requires 0 <= n <= |q|
  {
    forall i :: 0 <= i < n - 1 ==> PointsOn(links, q, i)
  }

  ghost predicate Rising(q: seq<Addr>) {
    forall a, b :: 0 <= a < b < |q| ==> 0 < q[a] < q[b]
  }

  lemma TrailGrows(links: Links, q: seq<Addr>, n: int)
    requires 1 <= n < |q| && Rising(q) && Trail(links, q, n)
    ensures Trail(links[q[n - 1] := q[n]], q, n + 1) && OnlyLinks(links, links[q[n - 1] := q[n]], q)
  {
    var links' := links[q[n - 1] := q[n]];
    forall i | 0 <= i < n ensures PointsOn(links', q, i) {
      if i < n - 1 { assert PointsOn(links, q, i); }
    }
    assert q[n - 1] in q;
  }

  lemma TrailCloses(links: Links, q: seq<Addr>)
    requires q != [] && Rising(q) && q[0] > 0 && Trail(links, q, |q|)
    ensures Chain(links[q[|q| - 1] := Null], q[0], q) && OnlyLinks(links, links[q[|q| - 1] := Null], q)
  {
    var links' := links[q[|q| - 1] := Null];
    forall i | 0 <= i < |q| - 1 ensures PointsOn(links', q, i) { assert PointsOn(links, q, i); }
    TrailEnds(links', q, 0);
    assert q[|q| - 1] in q && q[0..] == q;
  }

  lemma {:induction false} TrailEnds(links: Links, q: seq<Addr>, a: int)
    requires 0 <= a < |q| && Rising(q) && q[0] > 0 && Trail(links, q, |q|)
    requires q[|q| - 1] in links && links[q[|q| - 1]] == Null
    ensures Chain(links, q[a], q[a..])
    decreases |q| - a
  {
    if a < |q| - 1 {
      assert PointsOn(links, q, a);
      TrailEnds(links, q, a + 1);
      assert q[a..][1..] == q[a + 1..];
    } else {
      assert q[a..] == [q[a]] && q[a..][1..] == [];
    }
  }

  lemma NothingLinked(links: Links, q: seq<Addr>)
    ensures Trail(links, q, 0) && OnlyLinks(links, links, q)
  {
  }

  lemma OneLinked(links: Links, q: seq<Addr>)
    requires q != []
    ensures Trail(links, q, 1) && OnlyLinks(links, links, q)
  {
  }

  lemma Positive(q: seq<Addr>, n: int)
    requires 0 <= n <= |q| && q != [] && Rising(q) && q[0] > 0
    ensures n > 0 ==> q[n - 1] > 0
  {
  }

  lemma OnlyTrans(a: Links, b: Links, c: Links, q: seq<Addr>)
    requires OnlyLinks(a, b, q) && OnlyLinks(b, c, q)
    ensures OnlyLinks(a, c, q)
  {
  }

  lemma CellsRise(k: Class, start: PageId)
    requires k.Ok() && start >= 1
    ensures var q := CellsOf(k, start); q != [] && Rising(q) && q[0] > 0 && q == CellsFrom(start * PageSize, (start + k.pages) * PageSize, k.size)
  {
    hide CellsOf;
    CellsFacts(k, start);
    var q := CellsOf(k, start);
    forall a | 0 <= a < |q| ensures q[a] > 0 { assert q[a] in q; }
    SameCells(k, start);
  }

  lemma SameCells(k: Class, start: PageId)
    requires k.Ok()
    ensures CellsOf(k, start) == CellsFrom(start * PageSize, (start + k.pages) * PageSize, k.size)
  {
  }

  /** From the `n`-th cell on. */
  lemma NextCell(q: seq<Addr>, n: int, ptr: Addr, end: Addr, size: int)
    requires 0 <= n <= |q| && size >= 1 && q[n..] == CellsFrom(ptr, end, size)
    ensures ptr + size > end <==> n == |q|
    ensures ptr + size <= end ==> q[n] == ptr && q[n + 1..] == CellsFrom(ptr + size, end, size)
  {
    if ptr + size <= end {
      assert q[n..][0] == ptr && q[n..][1..] == q[n + 1..];
    }
  }

  class Memory {
    var links: Links

    constructor ()
      ensures links == map[]
    {
      links := map[];
    }

    /** SLL_Push. */
    method Push(list: Addr, element: Addr, ghost q: seq<Addr>) returns (head: Addr)
      requires Chain(links, list, q) && element != Null && element !in q
      modifies this
      ensures Chain(links, head, [element] + q) && links == old(links)[element := list]
    {
      head := element;
      links := links[element := list];
      ChainFrame(old(links), links, list, q);
    }

    /** SLL_TryPop. */
    method TryPop(list: Addr, ghost q: seq<Addr>) returns (ok: bool, element: Addr, head: Addr)
      requires Chain(links, list, q)
      ensures ok == (q != [])
      ensures ok ==> element == q[0] && Chain(links, head, q[1..])
      ensures !ok ==> head == list
    {
      if list == Null {
        return false, Null, list;
      }
      return true, list, links[list];
    }

    /** SLL_PopRange: `n` objects from the front, as a list of their own. */
    method PopRange(list: Addr, n: nat, ghost q: seq<Addr>) returns (start: Addr, end: Addr, head: Addr)
      requires Chain(links, list, q) && n <= |q|
      modifies this
      ensures Chain(links, start, q[..n]) && Chain(links, head, q[n..])
      ensures n > 0 ==> end == q[n - 1] && links == old(links)[end := Null]
      ensures n == 0 ==> end == Null && links == old(links)
    {
      if n == 0 {
        return Null, Null, list;
      }
      var tmp, i := list, 1;
      while i < n
        invariant 1 <= i <= n && tmp == q[i - 1] && links == old(links)
      {
        ChainFrom(links, list, q, i);
        tmp := links[tmp];
        i := i + 1;
      }
      ChainFrom(links, list, q, n);
      ChainCut(links, list, q, n);
      start, end, head := list, tmp, links[tmp];
      links := links[tmp := Null];
    }

    /** SLL_PushRange. */
    method PushRange(list: Addr, start: Addr, end: Addr, ghost q: seq<Addr>, ghost r: seq<Addr>) returns (head: Addr)
      requires Chain(links, list, q) && Chain(links, start, r) && (r != [] ==> end == r[|r| - 1])
      requires forall o :: o in r ==> o !in q
      modifies this
      ensures Chain(links, head, r + q)
      ensures links == if r == [] then old(links) else old(links)[end := list]
    {
      if start == Null {
        assert r + q == q;
        return list;
      }
      ChainJoin(links, start, r, list, q);
      links := links[end := list];
      return start;
    }

    /** SLL_Size. */
    method Size(list: Addr, ghost q: seq<Addr>) returns (count: nat)
      requires Chain(links, list, q)
      ensures count == |q|
    {
      var head := list;
      count := 0;
      while head != Null
        invariant 0 <= count <= |q| && Chain(links, head, q[count..])
        decreases |q| - count
      {
        assert q[count..][1..] == q[count + 1..];
        count := count + 1;
        head := links[head];
      }
    }

    /** The loop of Populate: writes a list through the objects of a span.  The end of a span at the
        very top of the address space wraps to zero, and then nothing is cut. */
    method Carve(k: Class, start: PageId) returns (head: Addr, num: int)
      requires k.Ok() && start >= 1 && start + k.pages <= PageLimit
      modifies this
      ensures start + k.pages < PageLimit ==> Chain(links, head, CellsOf(k, start)) && num == |CellsOf(k, start)| >= 1
      ensures start + k.pages == PageLimit ==> head == Null && num == 0 && links == old(links)
      ensures OnlyLinks(old(links), links, CellsOf(k, start))
    {
      hide Chain, CellsOf, CellsFrom, Trail, Rising, OnlyLinks;
      var ptr, limit := start * PageSize, ((start + k.pages) * PageSize) % AddressLimit;
      ghost var end, cells := (start + k.pages) * PageSize, CellsOf(k, start);
      CellsRise(k, start);
      NothingLinked(links, cells);
      assert cells[0..] == cells;
      var tail := Null;                            // null: the field of the span itself
      head, num := Null, 0;
      while true
        invariant 0 <= num <= |cells| && 0 < ptr <= end && cells[num..] == CellsFrom(ptr, end, k.size)
        invariant head == (if num == 0 then Null else cells[0]) && tail == (if num == 0 then Null else cells[num - 1])
        invariant Trail(links, cells, num) && OnlyLinks(old(links), links, cells)
        invariant num == 0 ==> links == old(links)
        invariant end == AddressLimit ==> num == 0
        decreases end - ptr
      {
        var next := (ptr + k.size) % AddressLimit;
        NextCell(cells, num, ptr, end, k.size);
        Positive(cells, num);
        if next < ptr || next > limit {
          break;
        }
        ghost var before := links;
        if tail == Null {
          head := ptr;
          OneLinked(links, cells);
        } else {
          TrailGrows(links, cells, num);
          links := links[tail := ptr];
        }
        OnlyTrans(old(links), before, links, cells);
        tail, num, ptr := ptr, num + 1, next;
      }
      Positive(cells, num);
      if tail == Null {
        head := Null;
      } else {
        TrailCloses(links, cells);
        ghost var before := links;
        links := links[tail := Null];
        OnlyTrans(old(links), before, links, cells);
      }
    }
  }
}
