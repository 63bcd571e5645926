/** How a span is cut into objects of one size class, and sums over tables of spans. */
module Cells {
  import opened Spans

  type Addr = int

  const PageSize: int := 8192

  /** One size class: object size, pages per span, and objects moved per batch. */
  datatype Class = Class(size: int, pages: int, batch: int) {
    predicate Ok() {
      size >= 1 && pages >= 1 && size <= pages * PageSize && batch >= 1
    }
  }

  function PageOf(o: Addr): PageId { o / PageSize }

  /** The objects of `size` bytes that fit between `ptr` and `limit`, in address order. */
  function CellsFrom(ptr: Addr, limit: Addr, size: int): seq<Addr>
    requires size >= 1
    decreases limit - ptr
  {
    if ptr + size > limit then [] else [ptr] + CellsFrom(ptr + size, limit, size)
  }

  function CellsOf(c: Class, start: PageId): seq<Addr>
    requires c.Ok()
  {
    CellsFrom(start * PageSize, (start + c.pages) * PageSize, c.size)
  }

  lemma {:induction false} CellsFromFacts(ptr: Addr, limit: Addr, size: int)
    requires size >= 1
    ensures var q := CellsFrom(ptr, limit, size);
      && (forall o :: o in q ==> ptr <= o && o + size <= limit)
      && (forall a, b :: 0 <= a < b < |q| ==> q[a] + size <= q[b])
      && |q| * size <= (if limit < ptr then 0 else limit - ptr)
      && (ptr <= limit ==> limit - ptr < |q| * size + size)
    decreases limit - ptr
  {
    if ptr + size <= limit {
      CellsFromFacts(ptr + size, limit, size);
      var q, r := CellsFrom(ptr, limit, size), CellsFrom(ptr + size, limit, size);
      assert q == [ptr] + r;
      assert |q| * size == |r| * size + size;
      forall a, b | 0 <= a < b < |q| ensures q[a] + size <= q[b] {
        assert q[b] == r[b - 1] && r[b - 1] in r;
        if a > 0 { assert q[a] == r[a - 1]; }
      }
    }
  }

  /** Objects lie inside the span, apart from each other, and fill it but for
      less than one object. */
  lemma CellsFacts(c: Class, start: PageId)
    requires c.Ok()
    ensures var q := CellsOf(c, start);
      && |q| >= 1
      && (forall o :: o in q ==> start * PageSize <= o && o + c.size <= (start + c.pages) * PageSize)
      && (forall o :: o in q ==> start <= PageOf(o) < start + c.pages)
      && (forall a, b :: 0 <= a < b < |q| ==> q[a] + c.size <= q[b])
      && |q| == (c.pages * PageSize) / c.size
  {
    CellsFromFacts(start * PageSize, (start + c.pages) * PageSize, c.size);
    var q := CellsOf(c, start);
    var total := c.pages * PageSize;
    assert |q| * c.size <= total < |q| * c.size + c.size;
    Quotient(total, c.size, |q|);
    assert |q| >= 1 by { assert |q| == 0 ==> |q| * c.size == 0; }
  }

  lemma Quotient(total: int, size: int, n: int)
    requires size >= 1 && n * size <= total < n * size + size
    ensures total / size == n
  {
    var q := total / size;
    assert total == size * q + total % size;
    assert q > n ==> size * q >= size * (n + 1);
    assert q < n ==> size * q <= size * (n - 1);
  }

  /** Each cell occurs once. */
  lemma CellOnce(c: Class, start: PageId, o: Addr)
    requires c.Ok()
    ensures multiset(CellsOf(c, start))[o] == if o in CellsOf(c, start) then 1 else 0
  {
    CellsFacts(c, start);
    OnceEach(CellsOf(c, start), o);
  }

  lemma {:induction false} OnceEach(q: seq<Addr>, o: Addr)
    requires forall a, b :: 0 <= a < b < |q| ==> q[a] != q[b]
    ensures multiset(q)[o] == if o in q then 1 else 0
  {
    if q != [] {
      OnceEach(q[1..], o);
      assert q == [q[0]] + q[1..];
    }
  }

  // ---------------------------------------------------------------- sums over tables

  ghost function Sum<V>(m: map<SpanId, V>, f: V -> multiset<Addr>): multiset<Addr>
    decreases |m|
  {
    if m == map[] then multiset{} else
      var i := Pick(m);
      f(m[i]) + Sum(m - {i}, f)
  }

  lemma {:induction false} SumSplit<V>(m: map<SpanId, V>, f: V -> multiset<Addr>, i: SpanId)
    requires i in m
    ensures Sum(m, f) == f(m[i]) + Sum(m - {i}, f)
    decreases |m|
  {
    var k := Pick(m);
    if k != i {
      SumSplit(m - {k}, f, i);
      SumSplit(m - {i}, f, k);
      assert m - {k} - {i} == m - {i} - {k};
    }
  }

  lemma SumAdd<V>(m: map<SpanId, V>, f: V -> multiset<Addr>, i: SpanId, v: V)
    ensures i !in m ==> Sum(m[i := v], f) == Sum(m, f) + f(v)
    ensures i in m ==> Sum(m[i := v], f) + f(m[i]) == Sum(m, f) + f(v)
  {
    SumSplit(m[i := v], f, i);
    if i in m {
      SumSplit(m, f, i);
      assert m[i := v] - {i} == m - {i};
    } else {
      assert m[i := v] - {i} == m;
    }
  }

  lemma {:induction false} SumNone<V>(m: map<SpanId, V>, f: V -> multiset<Addr>, o: Addr)
    requires forall i :: i in m ==> o !in f(m[i])
    ensures o !in Sum(m, f)
    decreases |m|
  {
    if m != map[] {
      SumNone(m - {Pick(m)}, f, o);
    }
  }

  lemma SumHas<V>(m: map<SpanId, V>, f: V -> multiset<Addr>, i: SpanId, o: Addr)
    requires i in m
    ensures Sum(m, f)[o] >= f(m[i])[o]
  {
    SumSplit(m, f, i);
  }

  lemma Cancel(a: multiset<Addr>, b: multiset<Addr>, moved: multiset<Addr>, rest: multiset<Addr>)
    requires a + (moved + rest) == b + rest
    ensures a + moved == b
  {
    forall o ensures (a + moved)[o] == b[o] {
      assert (a + (moved + rest))[o] == (b + rest)[o];
    }
  }
}
