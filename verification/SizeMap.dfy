/** The table of size classes and the flattened index from sizes to classes. */
module SizeMaps {
  import opened Arithmetic
  import opened Spans
  import opened Cells

  const Alignment: int := 8
  const MinAlign: int := 16
  const MaxSize: int := 0x4_0000
  const MaxSmallSize: int := 1024
  const ClassLimit: int := 128
  const IndexCount: int := 2169

  // ---------------------------------------------------------------- spacing of sizes

  function Pow2(k: nat): (r: int)
    ensures r >= 1
  {
    if k == 0 then 1 else 2 * Pow2(k - 1)
  }

  lemma {:induction false} Pow2Rises(a: nat, b: nat)
    requires a < b
    ensures 1 <= Pow2(a) && 2 * Pow2(a) <= Pow2(b)
  {
    if a > 0 { Pow2Rises(a - 1, b - 1); }
    else if b > 1 { Pow2Rises(0, b - 1); }
  }

  lemma {:induction false} Pow2Add(a: nat, b: nat)
    ensures Pow2(a + b) == Pow2(a) * Pow2(b)
    decreases b
  {
    if b > 0 {
      Pow2Add(a, b - 1);
      assert Pow2(a) * (2 * Pow2(b - 1)) == 2 * (Pow2(a) * Pow2(b - 1));
    }
  }

  lemma Pow2Values()
    ensures Pow2(5) == 32 && Pow2(32) == 0x1_0000_0000 && Pow2(1) == 2
  {
    assert Pow2(3) == 8;
    assert Pow2(8) == 256;
    Pow2Add(8, 8);
    Pow2Add(16, 16);
  }

  lemma Scale(c: int, u: int, v: int)
    requires c >= 0 && u <= v
    ensures c * u <= c * v
  {
  }

  /** `n` divided by `a` and then by `b` is `n` divided by `a * b`. */
  lemma DivideTwice(n: int, a: int, b: int, m: int, x: int, r: int)
    requires a >= 1 && b >= 1 && m == b * x + r && 0 <= r < b && a * m <= n < a * (m + 1)
    ensures (a * b) * x <= n < (a * b) * (x + 1)
  {
    Scale(a, b * x, m);
    Scale(a, m + 1, b * x + b);
    assert a * (b * x) == (a * b) * x;
    assert a * (b * x + b) == (a * b) * (x + 1);
  }

  lemma QuotientBounds(m: int, b: int)
    requires m >= 0 && b >= 1
    ensures m == b * (m / b) + m % b && m / b >= 0
    ensures m / b == 0 ==> m < b
    ensures m < b * b ==> m / b < b
  {
    var x := m / b;
    assert m == b * x + m % b;
    if x >= b { Scale(b, b, x); }
    if x < 0 { Scale(b, x, -1); }
  }

  /** Shifting right by `b` more bits. */
  lemma ShiftStep(n: int, a: nat, m: int, b: nat)
    requires m >= 0 && Pow2(a) * m <= n < Pow2(a) * (m + 1)
    ensures var x := m / Pow2(b);
      x >= 0 && Pow2(a + b) * x <= n < Pow2(a + b) * (x + 1)
      && (m < Pow2(2 * b) ==> x < Pow2(b)) && (x == 0 ==> m < Pow2(b))
  {
    hide Pow2;
    Pow2Add(a, b);
    Pow2Add(b, b);
    QuotientBounds(m, Pow2(b));
    DivideTwice(n, Pow2(a), Pow2(b), m, m / Pow2(b), m % Pow2(b));
  }

  lemma Pow2Double(k: nat)
    ensures Pow2(k + 1) == 2 * Pow2(k) && Pow2(0) == 1
  {
  }

  /** Halving the range of shifts: 16, 8, 4, 2, 1. */
  method LgFloor(n: int) returns (log: nat)
    requires 1 <= n < 0x1_0000_0000
    ensures Pow2(log) <= n < Pow2(log + 1)
  {
    hide Pow2;
    Pow2Values();
    Pow2Double(0);
    log := 0;
    var m, i := n, 4;
    while i >= 0
      invariant -1 <= i <= 4 && 1 <= m
      invariant m < Pow2(Pow2(i + 1))
      invariant Pow2(log) * m <= n < Pow2(log) * (m + 1)
    {
      Pow2Double(i);
      var shift := Pow2(i);
      ShiftStep(n, log, m, shift);
      var x := m / Pow2(shift);
      if x != 0 {
        m := x;
        log := log + shift;
      }
      i := i - 1;
    }
    Pow2Double(log);
  }

  /** The spacing of sizes: an eighth of the power of two below, within 8 bytes and a page. */
  function AlignOf(size: int): int {
    if size < 16 then 8 else if size < 256 then 16 else if size < 512 then 32 else if size < 1024 then 64
    else if size < 2048 then 128 else if size < 4096 then 256 else if size < 8192 then 512
    else if size < 0x4000 then 1024 else if size < 0x8000 then 2048 else if size < 0x1_0000 then 4096 else 8192
  }

  lemma Pow2Table()
    ensures Pow2(7) == 128 && Pow2(8) == 256 && Pow2(9) == 512 && Pow2(10) == 1024 && Pow2(11) == 2048
    ensures Pow2(12) == 4096 && Pow2(13) == 8192 && Pow2(14) == 0x4000 && Pow2(15) == 0x8000 && Pow2(16) == 0x1_0000
    ensures Pow2(17) == 0x2_0000 && Pow2(18) == 0x4_0000 && Pow2(19) == 0x8_0000
  {
    assert Pow2(3) == 8;
    assert Pow2(6) == 64;
    assert Pow2(8) == 256;
    assert Pow2(10) == 1024;
    assert Pow2(12) == 4096;
    assert Pow2(14) == 0x4000;
    assert Pow2(16) == 0x1_0000;
    assert Pow2(18) == 0x4_0000;
  }

  lemma AlignFromLog(size: int, log: nat)
    requires 128 <= size <= MaxSize && Pow2(log) <= size < Pow2(log + 1)
    ensures AlignOf(size) == if Pow2(log) / 8 > PageSize then PageSize else Pow2(log) / 8
  {
    hide Pow2;
    Pow2Table();
    if log < 6 { Pow2Rises(log + 1, 7); }
    if log > 19 { Pow2Rises(19, log); }
    assert 7 <= log <= 18;
  }

  method AlignmentForSize(size: int) returns (alignment: int)
    requires size >= 0
    ensures alignment == AlignOf(size)
  {
    alignment := Alignment;
    if size > MaxSize {
      alignment := PageSize;
    } else if size >= 128 {
      var log := LgFloor(size);
      AlignFromLog(size, log);
      alignment := Pow2(log) / 8;
    } else if size >= MinAlign {
      alignment := MinAlign;
    }
    if alignment > PageSize {
      alignment := PageSize;
    }
  }

  function NextSize(size: int): int { size + AlignOf(size) }

  /** `size` is the `k`-th multiple of its spacing. */
  ghost predicate OnGrid(size: int, k: int) {
    size == AlignOf(size) * k
    && (if size < 16 then k == 1 else if size < 256 then 1 <= k < 16 else if size < 0x1_0000 then 8 <= k < 16 else 8 <= k)
  }

  /** How many sizes are below the band of sizes with spacing `a`. */
  function Before(a: int): int {
    if a <= 8 then 0 else if a <= 16 then 1 else if a <= 32 then 9 else if a <= 64 then 17 else if a <= 128 then 25
    else if a <= 256 then 33 else if a <= 512 then 41 else if a <= 1024 then 49 else if a <= 2048 then 57
    else if a <= 4096 then 65 else 73
  }

  /** The place of a size among all sizes the table is built from. */
  function Rank(size: int, k: int): int { Before(AlignOf(size)) + k }

  ghost function NextK(size: int, k: int): int {
    if size < 16 then 1 else if k == 15 && size < 0x1_0000 then 8 else k + 1
  }

  lemma GridNext(size: int, k: int)
    requires OnGrid(size, k)
    ensures OnGrid(NextSize(size), NextK(size, k)) && NextSize(size) > size
    ensures Rank(NextSize(size), NextK(size, k)) == Rank(size, k) + 1
  {
  }

  lemma GridEnd(size: int, k: int)
    requires OnGrid(size, k) && size <= MaxSize
    ensures 1 <= Rank(size, k) <= 105
    ensures MaxSize < NextSize(size) ==> size == MaxSize
  {
  }

  lemma GridMultiples(size: int, k: int)
    requires OnGrid(size, k)
    ensures size % AlignOf(size) == 0 && size % 8 == 0 && (size > MaxSmallSize ==> size % 128 == 0)
  {
    if size >= 1024 {
      assert size % 128 == 0;
    }
  }

  // ---------------------------------------------------------------- span length of a class

  /** At most an eighth of the span is left over, and it holds at least `blocks` objects. */
  predicate GoodSpan(size: int, span: int, blocks: int)
    requires size >= 1
  {
    span % size <= span / 8 && span / size >= blocks
  }

  lemma LongEnough(size: int, span: int, blocks: int)
    requires size >= 1 && blocks >= 0 && span >= 0
    ensures span >= 8 * size ==> span % size <= span / 8
    ensures span >= blocks * size ==> span / size >= blocks
    ensures 0 < span < size ==> !GoodSpan(size, span, blocks)
  {
    var q := span / size;
    assert span == size * q + span % size;
    if q < blocks { Scale(size, q + 1, blocks); }
    if 0 < span < size {
      assert q <= 0 by { if q >= 1 { Scale(size, 1, q); } }
      assert q >= 0 by { if q <= -1 { Scale(size, q, -1); } }
    }
  }

  function Times(k: int, unit: int): int { k * unit }

  lemma OneMore(k: int, unit: int)
    ensures Times(k + 1, unit) == Times(k, unit) + unit && Times(0, unit) == 0
  {
  }

  lemma NotGood(size: int, span: int, blocks: int)
    requires size >= 1 && blocks >= 0 && span >= 0
    ensures span % size > span / 8 ==> !GoodSpan(size, span, blocks) && span < 8 * size
    ensures span / size < blocks ==> !GoodSpan(size, span, blocks) && span < blocks * size
    ensures span % size <= span / 8 && span / size >= blocks ==> GoodSpan(size, span, blocks)
  {
    LongEnough(size, span, blocks);
  }

  /** The least positive multiple of the smallest span that is good for objects of `size` bytes. */
  method SpanFor(size: int, unit: int, blocks: int) returns (span: int, ghost k: int)
    requires size >= 1 && unit >= 1 && blocks >= 0
    ensures k >= 1 && span == Times(k, unit) && span >= 0 && GoodSpan(size, span, blocks)
    ensures forall j :: 1 <= j < k ==> !GoodSpan(size, Times(j, unit), blocks)
  {
    hide GoodSpan, Times;
    ghost var enough := 8 * size + blocks * size;
    span, k := 0, 0;
    OneMore(0, unit);
    while true
      invariant k >= 0 && span == Times(k, unit) && span >= 0
      invariant forall j :: 1 <= j <= k ==> !GoodSpan(size, Times(j, unit), blocks)
      decreases enough - span
    {
      OneMore(k, unit);
      span, k := span + unit, k + 1;
      NotGood(size, span, blocks);
      while span % size > span / 8
        invariant k >= 1 && span == Times(k, unit) && span >= unit
        invariant forall j :: 1 <= j < k ==> !GoodSpan(size, Times(j, unit), blocks)
        decreases enough - span
      {
        NotGood(size, span, blocks);
        OneMore(k, unit);
        span, k := span + unit, k + 1;
      }
      NotGood(size, span, blocks);
      if span / size >= blocks {
        return;
      }
    }
  }

  // ---------------------------------------------------------------- classes

  /** Objects moved per batch: about 64 KiB worth, at least two, at most the transfer count. */
  function NumMoveSize(size: int, transfer: int): int {
    if size <= 0 then 0 else
      var n := if 0x1_0000 / size < 2 then 2 else 0x1_0000 / size;
      if n > transfer then transfer else n
  }

  /** A batch is the largest number of objects that together are at most 64 KiB, but at least two, and at most the
      transfer count. */
  lemma NumMoveExact(size: int, transfer: int)
    requires size >= 1
    ensures var n := NumMoveSize(size, transfer);
      && n <= transfer
      && (n > 2 ==> n * size <= 0x1_0000)
      && (n < transfer ==> n >= 2 && (n + 1) * size > 0x1_0000)
  {
    var n, q := NumMoveSize(size, transfer), 0x1_0000 / size;
    assert q * size <= 0x1_0000 < (q + 1) * size;
    if n > 2 { Scale(size, n, q); }
    if n < transfer { Scale(size, q + 1, n + 1); }
  }

  ghost predicate LeastSpan(size: int, unit: int, blocks: int, span: int)
    requires size >= 1
  {
    exists k :: k >= 1 && span == Times(k, unit) && GoodSpan(size, span, blocks)
      && forall j :: 1 <= j < k ==> !GoodSpan(size, Times(j, unit), blocks)
  }

  /** A class: an object size of the grid and the shortest span good for it. */
  ghost predicate ClassOk(size: int, pages: int, unit: int, transfer: int) {
    && 8 <= size <= MaxSize && size % 8 == 0 && (size > MaxSmallSize ==> size % 128 == 0)
    && pages >= 1 && LeastSpan(size, unit, NumMoveSize(size, transfer) / 4, pages * PageSize)
  }

  ghost predicate ClassesOk(sizes: seq<int>, pages: seq<int>, n: int, unit: int, transfer: int)
  {
    && 1 <= n <= |sizes| == |pages|
    && (forall c :: 1 <= c < n ==> ClassOk(sizes[c], pages[c], unit, transfer))
    && (forall c :: 1 < c < n ==> sizes[c - 1] < sizes[c])
  }

  /** Wasted space of every class is at most an eighth. */
  lemma LeftoverBound(size: int, pages: int, unit: int, transfer: int)
    requires ClassOk(size, pages, unit, transfer)
    ensures (pages * PageSize) % size <= (pages * PageSize) / 8 && size <= pages * PageSize
    ensures (pages * PageSize) / size >= NumMoveSize(size, transfer) / 4
  {
    hide Times;
    if pages * PageSize < size { LongEnough(size, pages * PageSize, 0); }
  }

  lemma {:induction false} Rising(sizes: seq<int>, pages: seq<int>, n: int, unit: int, transfer: int, a: int, b: int)
    requires ClassesOk(sizes, pages, n, unit, transfer) && 1 <= a < b < n
    ensures sizes[a] < sizes[b]
    decreases b
  {
    hide ClassOk;
    if a < b - 1 { Rising(sizes, pages, n, unit, transfer, a, b - 1); }
  }

  // ---------------------------------------------------------------- flattened index

  function ClassIndex(s: int): (i: int)
    requires 0 <= s <= MaxSize
    ensures 0 <= i < IndexCount
  {
    if s <= MaxSmallSize then (s + 7) / 8 else (s + 127 + 120 * 128) / 128
  }

  /** `c` is the smallest class that holds `s` bytes. */
  ghost predicate Smallest(sizes: seq<int>, n: int, c: int, s: int)
    requires n <= |sizes|
  {
    1 <= c < n && s <= sizes[c] && (c > 1 ==> sizes[c - 1] < s)
  }

  /** Sizes with one index fall between the same two classes. */
  lemma SharedIndex(s: int, t: int, bound: int)
    requires 0 <= s <= MaxSize && 0 <= t <= MaxSize && ClassIndex(s) == ClassIndex(t)
    requires bound % 8 == 0 && (bound > MaxSmallSize ==> bound % 128 == 0)
    ensures s <= bound <==> t <= bound
  {
    hide ClassIndex;
    Band(s);
    Band(t);
    assert bound == 8 * (bound / 8);
    assert bound > MaxSmallSize ==> bound == 128 * (bound / 128);
  }

  /** The sizes of one index. */
  lemma Band(s: int)
    requires 0 <= s <= MaxSize
    ensures var i := ClassIndex(s);
      if s <= MaxSmallSize then i <= 128 && 8 * (i - 1) < s <= 8 * i else i > 128 && 128 * (i - 121) < s <= 128 * (i - 120)
  {
  }

  lemma SameClass(sizes: seq<int>, pages: seq<int>, n: int, unit: int, transfer: int, c: int, s: int, t: int)
    requires ClassesOk(sizes, pages, n, unit, transfer) && Smallest(sizes, n, c, s)
    requires 0 <= s <= MaxSize && 0 <= t <= MaxSize && ClassIndex(s) == ClassIndex(t)
    ensures Smallest(sizes, n, c, t)
  {
    hide LeastSpan, ClassIndex;
    assert ClassOk(sizes[c], pages[c], unit, transfer);
    SharedIndex(s, t, sizes[c]);
    if c > 1 {
      assert ClassOk(sizes[c - 1], pages[c - 1], unit, transfer);
      SharedIndex(s, t, sizes[c - 1]);
    }
  }

  lemma RoundedIndex(s: int, t: int)
    requires 0 <= t <= s <= MaxSize && s % 8 == 0 && s - 8 < t
    ensures ClassIndex(s) == ClassIndex(t)
  {
    var u := s / 8;
    if s <= MaxSmallSize {
      assert 8 * u <= t + 7 < 8 * u + 8;
    } else {
      var v := (s + 15487) / 128;
      assert 8 * (u + 1935 - 16 * v) + 7 >= 0;
      assert u + 1935 - 16 * v >= 0;
      assert 128 * v <= t + 15487 < 128 * v + 128;
    }
  }

  // ---------------------------------------------------------------- which sizes become classes

  ghost predicate ClassSize(sizes: seq<int>, n: int, g: int)
    requires n <= |sizes|
  {
    exists c :: 1 <= c < n && sizes[c] == g
  }

  /** Spans of `p` and `q` pages for sizes `g` and `h` differ in length or in how many objects they hold. */
  predicate Differs(p: int, q: int, g: int, h: int)
    requires g >= 1 && h >= 1
  {
    p != q || (p * PageSize) / g != (q * PageSize) / h
  }

  /** `spans` has the span length of every size of the grid up to `last`, and a size below `last`
      is a class of its own exactly if the next size differs. */
  ghost predicate ExactTo(sizes: seq<int>, pages: seq<int>, n: int, spans: map<int, int>, last: int)
    requires 1 <= n <= |sizes| == |pages|
  {
    && (n == 1 ==> spans == map[]) && (n > 1 ==> 8 in spans && last in spans && sizes[n - 1] == last)
    && (forall g :: g in spans ==> 8 <= g <= last)
    && (forall c :: 1 <= c < n ==> sizes[c] in spans && pages[c] == spans[sizes[c]])
    && (forall g :: g in spans && g != last ==>
          && NextSize(g) in spans && NextSize(g) > g
          && (ClassSize(sizes, n, g) <==> Differs(spans[g], spans[NextSize(g)], g, NextSize(g))))
  }

  ghost predicate AllOk(spans: map<int, int>, unit: int, transfer: int) {
    forall g :: g in spans ==> ClassOk(g, spans[g], unit, transfer)
  }

  lemma AllOkAdd(spans: map<int, int>, unit: int, transfer: int, size: int, p: int)
    requires AllOk(spans, unit, transfer) && ClassOk(size, p, unit, transfer)
    ensures AllOk(spans[size := p], unit, transfer)
  {
    hide ClassOk;
  }

  lemma Same(p: int, q: int, g: int, h: int)
    requires g >= 1 && h >= 1
    ensures !Differs(p, q, g, h) ==> p == q
  {
  }

  /** One more size is merged into the last class, or appended, as its span says. */
  ghost predicate Added(sizes: seq<int>, pages: seq<int>, n: int, last: int, sizes': seq<int>, pages': seq<int>,
          n': int, size: int, p: int) {
    && 1 <= n <= n' <= |sizes| == |pages| == |sizes'| == |pages'| && size >= 8
    && (n == 1 ==> size == 8) && (n > 1 ==> 8 <= last < size == NextSize(last) && sizes[n - 1] == last)
    && (forall c :: 1 < c < n ==> sizes[c - 1] < sizes[c])
    && (n' == n <==> n > 1 && !Differs(pages[n - 1], p, last, size))
    && (n' == n ==> sizes' == sizes[n - 1 := size] && pages' == pages)
    && (n' != n ==> n' == n + 1 && sizes' == sizes[n := size] && pages' == pages[n := p])
  }

  lemma AddedPages(sizes: seq<int>, pages: seq<int>, n: int, spans: map<int, int>, last: int, sizes': seq<int>,
          pages': seq<int>, n': int, size: int, p: int)
    requires Added(sizes, pages, n, last, sizes', pages', n', size, p)
    requires forall c :: 1 <= c < n ==> sizes[c] in spans && sizes[c] <= last && pages[c] == spans[sizes[c]]
    ensures forall c :: 1 <= c < n' ==> sizes'[c] in spans[size := p] && pages'[c] == spans[size := p][sizes'[c]]
  {
    hide Differs, NextSize;
    if n' == n { Same(pages[n - 1], p, last, size); }
  }

  lemma AddedClasses(sizes: seq<int>, pages: seq<int>, n: int, last: int, sizes': seq<int>, pages': seq<int>,
          n': int, size: int, p: int, g: int)
    requires Added(sizes, pages, n, last, sizes', pages', n', size, p) && g != size
    ensures g != last ==> (ClassSize(sizes', n', g) <==> ClassSize(sizes, n, g))
    ensures g == last && n > 1 ==> (ClassSize(sizes', n', g) <==> Differs(pages[n - 1], p, last, size))
  {
    hide Differs, NextSize;
    if g != last {
      SameClassSizes(sizes, sizes', n, n', g, size, last);
    } else if n > 1 {
      if n' == n { NotElsewhere(sizes, n, last); }
      else { assert sizes'[n - 1] == g; }
    }
  }

  lemma ExactStep(sizes: seq<int>, pages: seq<int>, n: int, spans: map<int, int>, last: int, sizes': seq<int>,
          pages': seq<int>, n': int, size: int, p: int)
    requires Added(sizes, pages, n, last, sizes', pages', n', size, p) && ExactTo(sizes, pages, n, spans, last)
    ensures ExactTo(sizes', pages', n', spans[size := p], size)
  {
    hide Differs, NextSize, ClassSize;
    var spans' := spans[size := p];
    AddedPages(sizes, pages, n, spans, last, sizes', pages', n', size, p);
    forall g | g in spans' && g != size
      ensures NextSize(g) in spans' && NextSize(g) > g
      ensures ClassSize(sizes', n', g) <==> Differs(spans'[g], spans'[NextSize(g)], g, NextSize(g))
    {
      assert g in spans;
      AddedClasses(sizes, pages, n, last, sizes', pages', n', size, p, g);
    }
  }

  lemma {:induction false} BelowLast(sizes: seq<int>, n: int, c: int)
    requires 1 <= c < n - 1 && n <= |sizes| && forall d :: 1 < d < n ==> sizes[d - 1] < sizes[d]
    ensures sizes[c] < sizes[n - 1]
    decreases n
  {
    if c < n - 2 { BelowLast(sizes, n - 1, c); }
  }

  lemma NotElsewhere(sizes: seq<int>, n: int, last: int)
    requires 1 < n <= |sizes| && sizes[n - 1] == last && forall d :: 1 < d < n ==> sizes[d - 1] < sizes[d]
    ensures forall c :: 1 <= c < n - 1 ==> sizes[c] != last
  {
    forall c | 1 <= c < n - 1 ensures sizes[c] != last { BelowLast(sizes, n, c); }
  }

  lemma SameClassSizes(sizes: seq<int>, sizes': seq<int>, n: int, n': int, g: int, size: int, last: int)
    requires 1 <= n <= n' <= |sizes| == |sizes'| && g != size && g != last && (n > 1 ==> sizes[n - 1] == last)
    requires n' == n ==> n > 1 && sizes' == sizes[n - 1 := size]
    requires n' != n ==> n' == n + 1 && sizes' == sizes[n := size]
    ensures ClassSize(sizes', n', g) <==> ClassSize(sizes, n, g)
  {
    if ClassSize(sizes, n, g) {
      var c :| 1 <= c < n && sizes[c] == g;
      assert sizes'[c] == g;
    }
    if ClassSize(sizes', n', g) {
      var c :| 1 <= c < n' && sizes'[c] == g;
      assert sizes[c] == g;
    }
  }

  // ---------------------------------------------------------------- natural alignment

  predicate IsPower(a: int) {
    a == 8 || a == 16 || a == 32 || a == 64 || a == 128 || a == 256 || a == 512 || a == 1024 || a == 2048 || a == 4096 || a == 8192
  }

  lemma PowerDivides(a: int, b: int)
    requires IsPower(a) && IsPower(b) && a <= b
    ensures b % a == 0
  {
  }

  lemma DividesUp(a: int, b: int, g: int)
    requires a >= 1 && b >= 1 && b % a == 0 && g % b == 0
    ensures g % a == 0
  {
    assert g == b * (g / b) && b == a * (b / a);
    assert g == ((b / a) * (g / b)) * a;
    Multiple((b / a) * (g / b), a);
  }

  /** Sizes further up the grid are multiples of every spacing below. */
  lemma GridAbove(h: int, g: int, a: int)
    requires h <= g && g % AlignOf(g) == 0 && IsPower(a) && a <= AlignOf(h)
    ensures g % a == 0
  {
    assert IsPower(AlignOf(g)) && AlignOf(h) <= AlignOf(g);
    PowerDivides(a, AlignOf(g));
    DividesUp(a, AlignOf(g), g);
  }

  lemma NextMultiple(a: int, g: int, h: int)
    requires a >= 1 && g % a == 0 && h % a == 0 && g < h
    ensures g + a <= h
  {
    assert g == a * (g / a) && h == a * (h / a);
    if h / a <= g / a { Scale(a, h / a, g / a); }
    Scale(a, g / a + 1, h / a);
  }

  ghost predicate AllGrid(spans: map<int, int>) {
    forall g :: g in spans ==> g % AlignOf(g) == 0
  }

  lemma AllGridAdd(spans: map<int, int>, size: int, p: int)
    requires AllGrid(spans) && size % AlignOf(size) == 0
    ensures AllGrid(spans[size := p])
  {
    hide AlignOf;
  }

  /** The table was built from every size of the grid. */
  lemma {:induction false} GridInSpans(sizes: seq<int>, pages: seq<int>, n: int, spans: map<int, int>, h: int, g: int)
    requires 1 < n <= |sizes| == |pages| && ExactTo(sizes, pages, n, spans, MaxSize) && AllGrid(spans)
    requires h in spans && h <= g <= MaxSize && g % AlignOf(g) == 0
    ensures g in spans
    decreases g - h
  {
    hide AlignOf, Differs, ClassSize;
    if h < g {
      SpacingIs(h);
      GridAbove(h, g, AlignOf(h));
      NextMultiple(AlignOf(h), h, g);
      NextIs(h);
      GridInSpans(sizes, pages, n, spans, NextSize(h), g);
    }
  }

  lemma SpacingIs(h: int)
    ensures IsPower(AlignOf(h)) && AlignOf(h) >= 8
  {
  }

  lemma Cancel(a: int, m: int, n: int)
    requires a >= 1 && a * m <= a * n
    ensures m <= n
  {
    if n < m { Scale(a, n + 1, m); }
  }

  lemma DivMod(p: int, d: int)
    requires d >= 1
    ensures p == d * (p / d) + p % d && 0 <= p % d < d
  {
  }

  lemma Distribute(a: int, k: int, x: int, q: int)
    ensures a * x - (k * a) * q == a * (x - k * q)
  {
    assert (k * a) * q == a * (k * q);
    assert a * (x - k * q) == a * x - a * (k * q);
  }

  lemma CancelAll(a: int, w: int, k: int, x: int)
    requires a >= 1 && 0 <= a * w < k * a
    ensures 0 <= w < k && (8 * (a * w) <= a * x <==> 8 * w <= x)
  {
    Cancel(a, 0, w);
    if w >= k { Scale(a, k, w); }
    assert 8 * (a * w) == a * (8 * w);
    if 8 * w <= x { Scale(a, 8 * w, x); } else { Scale(a, x + 1, 8 * w); }
  }

  /** Of spans of `x` units of `a` bytes, `q` objects of `k` units take `k * q`; what is left over is
      not too much if the same is true in units. */
  lemma FitBounds(a: int, k: int, x: int, span: int, g: int)
    requires a >= 1 && k >= 1 && x >= 0 && span == a * x && g == k * a && g >= 1
    ensures var q := span / g;
      && k * q <= x < k * q + k
      && (span % g <= span / 8 <==> 8 * (x - k * q) <= x)
  {
    var q := span / g;
    DivMod(span, g);
    Distribute(a, k, x, q);
    var w := x - k * q;
    assert span % g == a * w;
    CancelAll(a, w, k, x);
  }

  predicate Spacing(a: int) { a == 16 || a == 32 || a == 64 || a == 128 || a == 256 || a == 512 }

  predicate EvenStep(k: int) { k == 2 || k == 4 || k == 6 || k == 8 || k == 10 || k == 12 || k == 14 }

  /** Whole pages are multiples of sixteen times any spacing below a page. */
  function Sixteens(a: int, p: int): int
    requires Spacing(a)
  {
    p * (512 / a)
  }

  lemma WholeSixteens(a: int, p: int)
    requires Spacing(a)
    ensures p * PageSize == a * (16 * Sixteens(a, p)) && (p >= 1 ==> Sixteens(a, p) >= 1) && (p == 0 ==> Sixteens(a, p) == 0)
  {
  }

  /** Where the next size can share the class of an even step. */
  lemma MergeCases(k: int, x: int, y: int, q: int)
    requires EvenStep(k) && q >= 1 && x == 16 * y
    requires k * q <= x < k * q + k && (k + 1) * q <= x && 8 * (x - k * q) <= x
    ensures (k == 12 && q == 6 && y == 5) || (k == 14 && y == q && 1 <= q <= 6)
  {
    if k == 2 { assert false; }
    else if k == 4 { assert false; }
    else if k == 6 { assert false; }
    else if k == 8 { assert false; }
    else if k == 10 { assert false; }
    else if k == 12 { assert 13 * q <= x && 7 * x <= 96 * q && x < 12 * q + 12; }
    else { assert 15 * q <= x && 7 * x <= 112 * q && x < 14 * q + 14; }
  }

  lemma MergeShape(a: int, k: int, p: int, blocks: int)
    requires Spacing(a) && EvenStep(k) && p >= 1 && k * a <= p * PageSize && GoodSpan(k * a, p * PageSize, blocks)
    requires (p * PageSize) / (k * a) == (p * PageSize) / ((k + 1) * a)
    ensures (k == 12 && a == 512 && p == 5) || (k == 14 && 1 <= Sixteens(a, p) <= 6)
  {
    hide Sixteens, EvenStep, Spacing;
    var y, span := Sixteens(a, p), p * PageSize;
    SpacingRange(a, k);
    WholeSixteens(a, p);
    FitBounds(a, k, 16 * y, span, k * a);
    FitBounds(a, k + 1, 16 * y, span, (k + 1) * a);
    var q := span / (k * a);
    AtLeastOne(span, k * a);
    MergeCases(k, 16 * y, y, q);
    if k == 12 { FivePages(a, p); }
  }

  lemma SpacingRange(a: int, k: int)
    requires Spacing(a) && EvenStep(k)
    ensures a >= 16 && k >= 2 && k * a >= 1 && (k + 1) * a >= 1
  {
  }

  lemma AtLeastOne(span: int, g: int)
    requires 1 <= g <= span
    ensures span / g >= 1
  {
    DivMod(span, g);
    if span / g <= 0 { Scale(g, span / g, 0); }
  }

  lemma FivePages(a: int, p: int)
    requires Spacing(a) && Sixteens(a, p) == 5
    ensures a == 512 && p == 5
  {
  }

  lemma LeastUnique(size: int, unit: int, blocks: int, s: int, t: int)
    requires size >= 1 && LeastSpan(size, unit, blocks, s) && LeastSpan(size, unit, blocks, t)
    ensures s == t
  {
    hide GoodSpan, Times;
    var j :| j >= 1 && s == Times(j, unit) && GoodSpan(size, s, blocks) && forall i :: 1 <= i < j ==> !GoodSpan(size, Times(i, unit), blocks);
    var k :| k >= 1 && t == Times(k, unit) && GoodSpan(size, t, blocks) && forall i :: 1 <= i < k ==> !GoodSpan(size, Times(i, unit), blocks);
  }

  /** Short spans of sixteens are good for objects of fifteen or sixteen steps alike. */
  lemma GoodSixteens(a: int, p: int, blocks: int)
    requires Spacing(a) && p >= 0 && Sixteens(a, p) <= 6
    ensures GoodSpan(15 * a, p * PageSize, blocks) <==> Sixteens(a, p) >= blocks
    ensures GoodSpan(16 * a, p * PageSize, blocks) <==> Sixteens(a, p) >= blocks
    ensures (p * PageSize) / (15 * a) == (p * PageSize) / (16 * a) == Sixteens(a, p)
  {
    hide Sixteens;
    var y, span := Sixteens(a, p), p * PageSize;
    WholeSixteens(a, p);
    assert y >= 0;
    FitBounds(a, 15, 16 * y, span, 15 * a);
    FitBounds(a, 16, 16 * y, span, 16 * a);
  }

  /** As long as few blocks are moved, as many of one size as of the other. */
  lemma SameBlocks(a: int, transfer: int)
    requires Spacing(a) && transfer >= 0 && NumMoveSize(15 * a, transfer) / 4 <= 6
    ensures NumMoveSize(16 * a, transfer) / 4 == NumMoveSize(15 * a, transfer) / 4
  {
  }

  lemma InPages(j: int, unit: int)
    requires unit % PageSize == 0
    ensures Times(j, unit) == (j * (unit / PageSize)) * PageSize
  {
    assert unit == (unit / PageSize) * PageSize;
  }

  lemma FewerSixteens(a: int, p: int, r: int)
    requires Spacing(a)
    ensures p < r ==> Sixteens(a, p) < Sixteens(a, r)
  {
  }

  /** If fifteen steps share a short span of whole sixteens, sixteen steps do too. */
  lemma SixteenMerges(a: int, unit: int, transfer: int, p: int, r: int)
    requires Spacing(a) && unit >= 1 && unit % PageSize == 0 && transfer >= 0
    requires ClassOk(15 * a, p, unit, transfer) && ClassOk(16 * a, r, unit, transfer) && Sixteens(a, p) <= 6
    ensures !Differs(p, r, 15 * a, 16 * a)
  {
    hide GoodSpan, Sixteens, NumMoveSize;
    var blocks := NumMoveSize(15 * a, transfer) / 4;
    GoodSixteens(a, p, blocks);
    SameBlocks(a, transfer);
    var k :| k >= 1 && p * PageSize == Times(k, unit) && GoodSpan(15 * a, p * PageSize, blocks)
      && forall j :: 1 <= j < k ==> !GoodSpan(15 * a, Times(j, unit), blocks);
    forall j | 1 <= j < k ensures !GoodSpan(16 * a, Times(j, unit), blocks) {
      InPages(j, unit);
      InPages(k, unit);
      Scale(unit / PageSize, j, k);
      FewerSixteens(a, j * (unit / PageSize), p);
      GoodSixteens(a, j * (unit / PageSize), blocks);
    }
    LeastUnique(16 * a, unit, blocks, p * PageSize, r * PageSize);
  }

  /** The one size that loses its alignment does so for smallest spans of five pages only. */
  lemma FiveUnit(unit: int, transfer: int)
    requires unit >= 1 && unit % PageSize == 0 && transfer >= 0 && ClassOk(6144, 5, unit, transfer)
    ensures unit == 5 * PageSize
  {
    var blocks := NumMoveSize(6144, transfer) / 4;
    var k :| k >= 1 && 5 * PageSize == Times(k, unit) && forall j :: 1 <= j < k ==> !GoodSpan(6144, Times(j, unit), blocks);
    InPages(k, unit);
    var u := unit / PageSize;
    assert k * u == 5;
    FactorsOfFive(k, u);
    if k == 5 { ThreePages(unit, transfer); }
  }

  lemma ThreePages(unit: int, transfer: int)
    requires unit == PageSize && transfer >= 0
    ensures GoodSpan(6144, Times(3, unit), NumMoveSize(6144, transfer) / 4)
  {
    assert Times(3, unit) == 24576;
  }

  lemma FactorsOfFive(k: int, u: int)
    requires k >= 1 && k * u == 5
    ensures (k == 1 && u == 5) || (k == 5 && u == 1)
  {
    if u <= 0 { Scale(k, u, 0); }
    if k > 5 { Scale(k, 1, u); }
  }

  /** What the table is known to be once it is built. */
  ghost predicate Built(sizes: seq<int>, pages: seq<int>, n: int, spans: map<int, int>, unit: int, transfer: int) {
    && 1 < n <= |sizes| == |pages| && ClassesOk(sizes, pages, n, unit, transfer) && ExactTo(sizes, pages, n, spans, MaxSize)
    && AllOk(spans, unit, transfer) && AllGrid(spans)
    && unit >= 1 && unit % PageSize == 0 && transfer >= 0
  }

  /** The class of a size that is a class of its own. */
  lemma OwnClass(sizes: seq<int>, pages: seq<int>, n: int, spans: map<int, int>, unit: int, transfer: int, c: int, g: int)
    requires Built(sizes, pages, n, spans, unit, transfer) && Smallest(sizes, n, c, g)
    ensures ClassSize(sizes, n, g) <==> sizes[c] == g
  {
    hide ClassesOk, ExactTo, AllOk, AllGrid;
    if ClassSize(sizes, n, g) {
      var d :| 1 <= d < n && sizes[d] == g;
      SmallestIsLeast(sizes, pages, n, unit, transfer, g, c, d);
    }
  }

  lemma ClassOnGrid(sizes: seq<int>, pages: seq<int>, n: int, spans: map<int, int>, unit: int, transfer: int, c: int)
    requires Built(sizes, pages, n, spans, unit, transfer) && 1 <= c < n
    ensures sizes[c] % AlignOf(sizes[c]) == 0 && 8 <= sizes[c] <= MaxSize
  {
    hide ClassOk, AlignOf, Differs, ClassSize, NextSize;
  }

  lemma ExactAt(sizes: seq<int>, pages: seq<int>, n: int, spans: map<int, int>, g: int)
    requires 1 < n <= |sizes| == |pages| && ExactTo(sizes, pages, n, spans, MaxSize) && g in spans && g != MaxSize
    ensures 8 <= g && NextSize(g) in spans && NextSize(g) > g
    ensures ClassSize(sizes, n, g) <==> Differs(spans[g], spans[NextSize(g)], g, NextSize(g))
  {
    hide AlignOf, Differs, ClassSize, NextSize;
  }

  lemma SpanAt(spans: map<int, int>, unit: int, transfer: int, g: int)
    requires AllOk(spans, unit, transfer) && g in spans
    ensures ClassOk(g, spans[g], unit, transfer)
  {
    hide ClassOk;
  }

  /** A size of the grid, and whether it shares the class of the next one. */
  ghost predicate StepFacts(sizes: seq<int>, n: int, spans: map<int, int>, unit: int, transfer: int, g: int) {
    && n <= |sizes| && 1 <= g < NextSize(g) && g in spans && NextSize(g) in spans
    && ClassOk(g, spans[g], unit, transfer) && ClassOk(NextSize(g), spans[NextSize(g)], unit, transfer)
    && (ClassSize(sizes, n, g) <==> Differs(spans[g], spans[NextSize(g)], g, NextSize(g)))
  }

  lemma GridStep(sizes: seq<int>, pages: seq<int>, n: int, spans: map<int, int>, unit: int, transfer: int, g: int)
    requires 8 <= g < MaxSize && g % AlignOf(g) == 0 && Built(sizes, pages, n, spans, unit, transfer)
    ensures StepFacts(sizes, n, spans, unit, transfer, g)
  {
    hide ClassOk, AlignOf, Differs, ClassSize, NextSize, ClassesOk, ExactTo, AllOk, AllGrid;
    FirstInSpans(sizes, pages, n, spans);
    GridInSpans(sizes, pages, n, spans, 8, g);
    ExactAt(sizes, pages, n, spans, g);
    SpanAt(spans, unit, transfer, g);
    SpanAt(spans, unit, transfer, NextSize(g));
  }

  lemma FirstInSpans(sizes: seq<int>, pages: seq<int>, n: int, spans: map<int, int>)
    requires 1 < n <= |sizes| == |pages| && ExactTo(sizes, pages, n, spans, MaxSize)
    ensures 8 in spans
  {
    hide AlignOf, Differs, ClassSize, NextSize;
  }

  lemma EvenSize(size: int, align: int)
    requires IsPower(align) && 16 <= align <= size < PageSize && size % align == 0 && align > AlignOf(size)
    ensures var a, k := AlignOf(size), size / AlignOf(size);
      Spacing(a) && EvenStep(k) && size == k * a && size % a == 0 && NextSize(size) == (k + 1) * a
    ensures size / AlignOf(size) == 14 ==> align == 2 * AlignOf(size)
  {
    hide AlignOf;
    var a := AlignOf(size);
    SpacingOf(size);
    PowerDivides(2 * a, align);
    DividesUp(2 * a, align, size);
    NextIs(size);
    EvenSteps(a, size);
    if size / a == 14 && align != 2 * a {
      PowerDivides(4 * a, align);
      DividesUp(4 * a, align, size);
    }
  }

  lemma SpacingOf(size: int)
    requires 16 <= size < PageSize
    ensures Spacing(AlignOf(size)) && size < 16 * AlignOf(size)
  {
  }

  lemma ExactQuotient(k: int, a: int)
    requires a >= 1
    ensures (k * a) / a == k && (k * a) % a == 0
  {
    Multiple(k, a);
    DivMod(k * a, a);
    SameMultiple((k * a) / a, k, a);
  }

  lemma EvenSteps(a: int, size: int)
    requires Spacing(a) && 16 <= size < 16 * a && size % (2 * a) == 0
    ensures EvenStep(size / a) && size == (size / a) * a && size % a == 0
    ensures size / a == 14 ==> size % (4 * a) != 0
  {
    hide Spacing;
    assert a >= 16 by { SpacingRange(a, 2); }
    DivMod(size, 2 * a);
    var m := size / (2 * a);
    assert size == (2 * m) * a;
    ExactQuotient(2 * m, a);
    Cancel(a, 2 * m, 16);
    if 2 * m >= 16 { Scale(a, 16, 2 * m); }
    if m <= 0 { Scale(a, 2 * m, 0); }
    if 2 * m == 14 {
      DivMod(size, 4 * a);
      assert 14 * a == 4 * a * (size / (4 * a)) + size % (4 * a);
      if size / (4 * a) >= 4 { Scale(4 * a, 4, size / (4 * a)); }
      if size / (4 * a) <= 3 { Scale(4 * a, size / (4 * a), 3); }
    }
  }

  /** Every class that serves an aligned size is aligned as well, unless smallest spans have five pages. */
  lemma AlignedClass(sizes: seq<int>, pages: seq<int>, n: int, spans: map<int, int>, unit: int, transfer: int, c: int, size: int, align: int)
    requires Built(sizes, pages, n, spans, unit, transfer) && unit != 5 * PageSize && Smallest(sizes, n, c, size)
    requires IsPower(align) && 16 <= align <= size < PageSize && size % align == 0
    ensures sizes[c] % align == 0
  {
    hide Built, AlignOf, NextSize, Differs, ClassOk, ClassSize;
    BuiltUnit(sizes, pages, n, spans, unit, transfer);
    var g := sizes[c];
    ClassOnGrid(sizes, pages, n, spans, unit, transfer, c);
    if align <= AlignOf(size) {
      GridAbove(size, g, align);
    } else {
      EvenSize(size, align);
      GridStep(sizes, pages, n, spans, unit, transfer, size);
      OwnClass(sizes, pages, n, spans, unit, transfer, c, size);
      if g != size {
        SharedClass(sizes, pages, n, spans, unit, transfer, c, size, align);
      }
    }
  }

  lemma SharedClass(sizes: seq<int>, pages: seq<int>, n: int, spans: map<int, int>, unit: int, transfer: int, c: int, size: int, align: int)
    requires Built(sizes, pages, n, spans, unit, transfer) && unit != 5 * PageSize && Smallest(sizes, n, c, size)
    requires IsPower(align) && 16 <= align <= size < PageSize && size % align == 0 && align > AlignOf(size)
    requires size in spans && NextSize(size) in spans && NextSize(size) > size && ClassOk(size, spans[size], unit, transfer)
    requires !Differs(spans[size], spans[NextSize(size)], size, NextSize(size)) && sizes[c] != size
    ensures sizes[c] % align == 0
  {
    hide Built, AlignOf, NextSize, ClassOk, ClassSize, Sixteens, GoodSpan, Differs, EvenStep, Spacing, IsPower;
    BuiltUnit(sizes, pages, n, spans, unit, transfer);
    EvenSize(size, align);
    SharedShape(AlignOf(size), size / AlignOf(size), spans[size], spans[NextSize(size)], unit, transfer);
    FifteenToo(sizes, pages, n, spans, unit, transfer, c, AlignOf(size));
  }

  lemma SharedShape(a: int, k: int, p: int, r: int, unit: int, transfer: int)
    requires Spacing(a) && EvenStep(k) && ClassOk(k * a, p, unit, transfer) && (k + 1) * a >= 1 && k * a >= 1
    requires !Differs(p, r, k * a, (k + 1) * a)
    requires unit >= 1 && unit % PageSize == 0 && transfer >= 0 && unit != 5 * PageSize
    ensures k == 14 && p == r && Sixteens(a, p) <= 6
  {
    hide ClassOk, Sixteens, EvenStep, Spacing;
    MergeOf(a, k, p, unit, transfer);
    if k == 12 { FiveUnit(unit, transfer); }
  }

  /** Fourteen steps share a class only with fifteen and sixteen. */
  lemma FifteenToo(sizes: seq<int>, pages: seq<int>, n: int, spans: map<int, int>, unit: int, transfer: int, c: int, a: int)
    requires Built(sizes, pages, n, spans, unit, transfer) && Spacing(a) && 15 * a in spans && 1 <= c < n <= |sizes|
    requires 14 * a < sizes[c] && Sixteens(a, spans[15 * a]) <= 6
    ensures sizes[c] % (2 * a) == 0
  {
    hide Built, ClassOk, ClassSize, Sixteens, Differs;
    BuiltUnit(sizes, pages, n, spans, unit, transfer);
    ClassOnGrid(sizes, pages, n, spans, unit, transfer, c);
    StepsFifteen(a);
    GridStep(sizes, pages, n, spans, unit, transfer, 15 * a);
    SixteenMerges(a, unit, transfer, spans[15 * a], spans[16 * a]);
    IsClassSize(sizes, n, c);
    GridAbove(14 * a, sizes[c], a);
    NextMultiple(a, 14 * a, sizes[c]);
    NextMultiple(a, 15 * a, sizes[c]);
    GridAbove(16 * a, sizes[c], 2 * a);
  }

  lemma StepsFifteen(a: int)
    requires Spacing(a)
    ensures AlignOf(14 * a) == AlignOf(15 * a) == a && NextSize(15 * a) == 16 * a && 2 * a <= AlignOf(16 * a) && IsPower(a) && IsPower(2 * a)
    ensures (14 * a) % a == 0 && (15 * a) % a == 0 && 8 <= 15 * a < MaxSize
  {
  }

  lemma IsClassSize(sizes: seq<int>, n: int, c: int)
    requires 1 <= c < n <= |sizes|
    ensures ClassSize(sizes, n, sizes[c])
  {
  }

  lemma BuiltUnit(sizes: seq<int>, pages: seq<int>, n: int, spans: map<int, int>, unit: int, transfer: int)
    requires Built(sizes, pages, n, spans, unit, transfer)
    ensures unit >= 1 && unit % PageSize == 0 && transfer >= 0 && 1 < n <= |sizes|
  {
  }

  lemma MergeOf(a: int, k: int, p: int, unit: int, transfer: int)
    requires Spacing(a) && EvenStep(k) && ClassOk(k * a, p, unit, transfer)
    requires (p * PageSize) / (k * a) == (p * PageSize) / ((k + 1) * a)
    ensures (k == 12 && a == 512 && p == 5) || (k == 14 && 1 <= Sixteens(a, p) <= 6)
  {
    hide GoodSpan, Sixteens;
    LeftoverBound(k * a, p, unit, transfer);
    assert GoodSpan(k * a, p * PageSize, NumMoveSize(k * a, transfer) / 4);
    MergeShape(a, k, p, NumMoveSize(k * a, transfer) / 4);
  }

  /** With smallest spans of five pages, objects of twelve and thirteen steps of 512 bytes fill one span alike. */
  lemma FiveSpans(g: int, p: int, transfer: int)
    requires g == 6144 || g == 6656
    requires ClassOk(g, p, 5 * PageSize, transfer) && transfer >= 0
    ensures p == 5 && (p * PageSize) / g == 6
  {
    var blocks := NumMoveSize(g, transfer) / 4;
    assert Times(1, 5 * PageSize) == 5 * PageSize && GoodSpan(g, 5 * PageSize, blocks);
    assert LeastSpan(g, 5 * PageSize, blocks, 5 * PageSize);
    LeastUnique(g, 5 * PageSize, blocks, 5 * PageSize, p * PageSize);
  }

  lemma FiveDiffers(p: int, r: int)
    requires p == 5
    ensures Differs(p, r, 6656, 7168)
  {
  }

  lemma StepsTwelve()
    ensures 6144 % AlignOf(6144) == 0 && 6656 % AlignOf(6656) == 0 && NextSize(6144) == 6656 && NextSize(6656) == 7168
    ensures AlignOf(6144) == AlignOf(6656) == 512
  {
  }

  /** Then a request for 6144 bytes gets 6656, which is no multiple of 1024. */
  lemma MisalignedClass(sizes: seq<int>, pages: seq<int>, n: int, spans: map<int, int>, transfer: int, c: int)
    requires Built(sizes, pages, n, spans, 5 * PageSize, transfer) && Smallest(sizes, n, c, 6144)
    ensures sizes[c] == 6656
  {
    hide Built, ClassOk, ClassSize, Differs, AlignOf, NextSize;
    var unit := 5 * PageSize;
    BuiltUnit(sizes, pages, n, spans, unit, transfer);
    StepsTwelve();
    GridStep(sizes, pages, n, spans, unit, transfer, 6144);
    GridStep(sizes, pages, n, spans, unit, transfer, 6656);
    FiveSpans(6144, spans[6144], transfer);
    FiveSpans(6656, spans[6656], transfer);
    FiveDiffers(spans[6656], spans[7168]);
    assert !Differs(spans[6144], spans[6656], 6144, 6656) by { FiveSame(spans[6144], spans[6656]); }
    OwnClass(sizes, pages, n, spans, unit, transfer, c, 6144);
    UpTo(sizes, pages, n, spans, unit, transfer, c, 6144, 6656);
    ClassOnGrid(sizes, pages, n, spans, unit, transfer, c);
    GridAbove(6144, sizes[c], 512);
    NextMultiple(512, 6144, sizes[c]);
  }

  lemma FiveSame(p: int, r: int)
    requires p == r == 5
    ensures !Differs(p, r, 6144, 6656)
  {
  }

  lemma UpTo(sizes: seq<int>, pages: seq<int>, n: int, spans: map<int, int>, unit: int, transfer: int, c: int, g: int, h: int)
    requires Built(sizes, pages, n, spans, unit, transfer) && Smallest(sizes, n, c, g) && g <= h && ClassSize(sizes, n, h)
    ensures sizes[c] <= h
  {
    hide ClassesOk, ExactTo, AllOk, AllGrid;
    var d :| 1 <= d < n && sizes[d] == h;
    SmallestIsLeast(sizes, pages, n, unit, transfer, g, c, d);
  }

  class SizeMap {
    ghost var spans: map<int, int>        // pages per span of every size of the grid
    const classArray: array<int>
    const toSize: array<int>
    const toPages: array<int>
    const toMove: array<int>
    var numClasses: int
    var minSpanPages: int

    ghost predicate Arrays()
      reads this
    {
      && classArray.Length == IndexCount && toSize.Length == toPages.Length == toMove.Length == ClassLimit
      && classArray != toSize && classArray != toPages && classArray != toMove
      && toSize != toPages && toSize != toMove && toPages != toMove
    }

    constructor ()
      ensures Arrays() && fresh(classArray) && fresh(toSize) && fresh(toPages) && fresh(toMove)
    {
      classArray, toSize := new int[IndexCount], new int[ClassLimit];
      toPages, toMove := new int[ClassLimit], new int[ClassLimit];
      numClasses, minSpanPages := 0, 0;
      spans := map[];
    }

    /** The table after initialisation, for smallest spans of `unit` bytes. */
    ghost predicate TableOk(unit: int, transfer: int)
      reads this, toSize, toPages
    {
      && Arrays() && 2 <= numClasses <= ClassLimit
      && ClassesOk(toSize[..], toPages[..], numClasses, unit, transfer)
      && toSize[numClasses - 1] == MaxSize
    }

    /** Sizes become classes exactly where span length or object count changes. */
    ghost predicate Exact(unit: int, transfer: int)
      reads this, toSize, toPages
    {
      && toSize.Length == toPages.Length && 1 <= numClasses <= toSize.Length && AllOk(spans, unit, transfer) && AllGrid(spans)
      && ExactTo(toSize[..], toPages[..], numClasses, spans, MaxSize)
    }

    ghost predicate IndexOk()
      reads this, toSize, classArray
    {
      && Arrays() && 2 <= numClasses <= ClassLimit
      && forall s :: 0 <= s <= MaxSize ==> Smallest(toSize[..], numClasses, classArray[ClassIndex(s)], s)
    }

    /** Walks the grid of sizes and makes a class of each, or merges it into the class before. */
    method BuildClasses(unit: int, transfer: int)
      requires Arrays() && unit >= 1 && unit % PageSize == 0 && transfer >= 0
      modifies this`numClasses, this`spans, toSize, toPages
      ensures TableOk(unit, transfer) && Exact(unit, transfer)
    {
      hide ClassesOk, ClassOk, AlignOf, OnGrid, Rank, NextK, ExactTo, NextSize, AllOk, AllGrid;
      var sc, size := 1, Alignment;
      spans := map[];
      NoSpans(unit, transfer);
      ghost var k, last := 1, 1;
      FirstSize();
      NoClasses(unit, transfer);
      while size <= MaxSize
        invariant 1 <= sc <= Rank(size, k) && OnGrid(size, k) && size >= 8
        invariant sc <= 106
        invariant ClassesOk(toSize[..], toPages[..], sc, unit, transfer)
        invariant ExactTo(toSize[..], toPages[..], sc, spans, if sc == 1 then 0 else toSize[sc - 1])
        invariant AllOk(spans, unit, transfer) && AllGrid(spans)
        invariant sc == 1 ==> size == 8
        invariant sc > 1 ==> OnGrid(toSize[sc - 1], last) && toSize[sc - 1] < NextSize(toSize[sc - 1]) == size
        invariant sc > 1 ==> 8 <= toSize[sc - 1] <= MaxSize
        decreases MaxSize - size
      {
        GridMultiples(size, k);
        GridNext(size, k);
        GridEnd(size, k);
        NextIs(size);
        var alignment := AlignmentForSize(size);
        var pages := PagesFor(size, unit, transfer);
        sc := AddSize(sc, size, pages, unit, transfer);
        AllOkAdd(spans, unit, transfer, size, pages);
        AllGridAdd(spans, size, pages);
        spans := spans[size := pages];
        last, k := k, NextK(size, k);
        size := size + alignment;
      }
      numClasses := sc;
      GridEnd(toSize[sc - 1], last);
    }

    lemma NoClasses(unit: int, transfer: int)
      requires Arrays()
      ensures ClassesOk(toSize[..], toPages[..], 1, unit, transfer)
    {
    }

    lemma NoSpans(unit: int, transfer: int)
      requires Arrays()
      ensures ExactTo(toSize[..], toPages[..], 1, map[], 0) && AllOk(map[], unit, transfer) && AllGrid(map[])
    {
    }

    /** One size: merged if the class before has as many pages and as many objects, else a new class. */
    method AddSize(sc: int, size: int, pages: int, unit: int, transfer: int) returns (next: int)
      requires Arrays() && 1 <= sc < ClassLimit && ClassesOk(toSize[..], toPages[..], sc, unit, transfer)
      requires ClassOk(size, pages, unit, transfer) && size >= 8
      requires if sc == 1 then size == 8 else 8 <= toSize[sc - 1] < size == NextSize(toSize[sc - 1])
      requires ExactTo(toSize[..], toPages[..], sc, spans, if sc == 1 then 0 else toSize[sc - 1])
      modifies toSize, toPages
      ensures sc <= next <= sc + 1 && 1 < next && ClassesOk(toSize[..], toPages[..], next, unit, transfer)
      ensures toSize[next - 1] == size
      ensures ExactTo(toSize[..], toPages[..], next, spans[size := pages], size)
    {
      hide ClassOk, ExactTo, NextSize;
      ghost var last := if sc == 1 then 0 else toSize[sc - 1];
      next := sc + 1;
      if sc > 1 && pages == toPages[sc - 1] {
        if (pages * PageSize) / size == (toPages[sc - 1] * PageSize) / toSize[sc - 1] {
          next := sc;
        }
      }
      if next == sc {
        toSize[sc - 1] := size;
      } else {
        toPages[sc], toSize[sc] := pages, size;
      }
      ExactStep(old(toSize[..]), old(toPages[..]), sc, spans, last, toSize[..], toPages[..], next, size, pages);
    }

    /** Fills the index: every multiple of eight up to a class size gets the class. */
    method FillIndex(ghost unit: int, ghost transfer: int)
      requires TableOk(unit, transfer)
      modifies classArray
      ensures IndexOk() && TableOk(unit, transfer)
    {
      hide ClassesOk, FilledTo, Smallest;
      NoneFilled();
      var nextSize, c := 0, 1;
      while c < numClasses
        invariant 1 <= c <= numClasses && nextSize == (if c == 1 then 0 else toSize[c - 1] + Alignment)
        invariant FilledTo(toSize[..], nextSize) && TableOk(unit, transfer)
      {
        SizeFacts(unit, transfer, c);
        FillClass(c, nextSize, unit, transfer);
        nextSize := toSize[c] + Alignment;
        c := c + 1;
      }
      AllFilled(nextSize);
    }

    /** All multiples of eight from `nextSize` up to the size of class `c`. */
    method FillClass(c: int, nextSize: int, ghost unit: int, ghost transfer: int)
      requires TableOk(unit, transfer) && 1 <= c < numClasses && FilledTo(toSize[..], nextSize)
      requires 8 <= toSize[c] <= MaxSize && toSize[c] % 8 == 0
      requires if c == 1 then nextSize == 0 else 8 <= toSize[c - 1] < toSize[c] && toSize[c - 1] % 8 == 0 && nextSize == toSize[c - 1] + 8
      modifies classArray
      ensures FilledTo(toSize[..], toSize[c] + 8)
    {
      hide ClassesOk, FilledTo;
      var s := nextSize;
      while s <= toSize[c]
        invariant nextSize <= s <= toSize[c] + 8 && s % 8 == 0 && FilledTo(toSize[..], s)
      {
        FillOne(toSize[..], toPages[..], unit, transfer, c, s);
        s := s + Alignment;
      }
    }

    lemma NoneFilled()
      requires Arrays() && numClasses <= ClassLimit
      ensures FilledTo(toSize[..], 0)
    {
    }

    lemma AllFilled(s: int)
      requires Arrays() && 2 <= numClasses <= ClassLimit && FilledTo(toSize[..], s) && s >= MaxSize + 8
      ensures IndexOk()
    {
      hide Smallest, ClassIndex;
    }

    method FillOne(ghost sizes: seq<int>, ghost pages: seq<int>, ghost unit: int, ghost transfer: int, c: int, s: int)
      requires FilledTo(sizes, s) && ClassesOk(sizes, pages, numClasses, unit, transfer)
      requires 0 <= s <= MaxSize && s % 8 == 0 && Smallest(sizes, numClasses, c, s)
      modifies classArray
      ensures FilledTo(sizes, s + 8)
    {
      hide ClassesOk, ClassIndex;
      classArray[ClassIndex(s)] := c;
      forall t | 0 <= t <= MaxSize && t <= s ensures Smallest(sizes, numClasses, classArray[ClassIndex(t)], t) {
        if t > s - 8 { RoundedIndex(s, t); }
        if ClassIndex(t) == ClassIndex(s) { SameClass(sizes, pages, numClasses, unit, transfer, c, s, t); }
      }
    }

    lemma SizeFacts(unit: int, transfer: int, c: int)
      requires TableOk(unit, transfer) && 1 <= c < numClasses
      ensures 8 <= toSize[c] <= MaxSize && toSize[c] % 8 == 0
      ensures c > 1 ==> 8 <= toSize[c - 1] < toSize[c] && toSize[c - 1] % 8 == 0
    {
      hide LeastSpan;
      assert ClassOk(toSize[..][c], toPages[..][c], unit, transfer);
      if c > 1 {
        assert toSize[..][c - 1] < toSize[..][c];
        assert ClassOk(toSize[..][c - 1], toPages[..][c - 1], unit, transfer);
      }
    }

    /** The index is right for every size up to the last multiple of eight below `s`. */
    ghost predicate FilledTo(sizes: seq<int>, s: int)
      reads this, classArray
    {
      && Arrays() && |sizes| == ClassLimit && numClasses <= ClassLimit
      && forall t :: 0 <= t <= MaxSize && t <= s - 8 ==> Smallest(sizes, numClasses, classArray[ClassIndex(t)], t)
    }

    /** Requests of aligned sizes below a page get aligned blocks. */
    ghost predicate Aligned(size: int, align: int)
      requires IndexOk() && 0 <= size <= MaxSize && align >= 1
      reads this, classArray, toSize
    {
      Smallest(toSize[..], numClasses, classArray[ClassIndex(size)], size) && toSize[classArray[ClassIndex(size)]] % align == 0
    }

    ghost predicate NaturallyAligned()
      requires IndexOk()
      reads this, classArray, toSize
    {
      forall align, size :: IsPower(align) && 16 <= align <= size < PageSize && size % align == 0 ==> Aligned(size, align)
    }

    /** The check of natural alignment: for all powers of two up to a page, all their multiples below a page. */
    method CheckAlignment() returns (ok: bool)
      requires IndexOk()
      ensures ok <==> NaturallyAligned()
    {
      hide Smallest, ClassIndex, IndexOk;
      var align := MinAlign;
      while align <= PageSize
        invariant (IsPower(align) && 16 <= align) || align == 2 * PageSize
        invariant forall a, size :: IsPower(a) && 16 <= a <= size < PageSize && a < align && size % a == 0 ==> Aligned(size, a)
        decreases 2 * PageSize - align
      {
        ok := CheckMultiples(align);
        if !ok {
          return;
        }
        align := align * 2;
      }
      ok := true;
    }

    method CheckMultiples(align: int) returns (ok: bool)
      requires IndexOk() && IsPower(align) && 16 <= align
      ensures ok <==> forall size :: align <= size < PageSize && size % align == 0 ==> Aligned(size, align)
    {
      hide Smallest, ClassIndex, IsPower;
      var size := align;
      while size < PageSize
        invariant align <= size && size % align == 0
        invariant forall s :: align <= s < size && s < PageSize && s % align == 0 ==> Aligned(s, align)
      {
        assert Smallest(toSize[..], numClasses, classArray[ClassIndex(size)], size);
        ClassNumber(size);
        if toSize[classArray[ClassIndex(size)]] % align != 0 {
          assert !Aligned(size, align);
          return false;
        }
        NoneBetween(align, size);
        NextAligned(align, size);
        size := size + align;
      }
      return true;
    }

    lemma ClassNumber(size: int)
      requires IndexOk() && 0 <= size <= MaxSize
      ensures 0 <= classArray[ClassIndex(size)] < toSize.Length
    {
      hide ClassIndex;
      assert Smallest(toSize[..], numClasses, classArray[ClassIndex(size)], size);
    }

    /** Natural alignment holds for all page sizes and transfer counts but one page size. */
    lemma AlignedUnless(unit: int, transfer: int)
      requires TableOk(unit, transfer) && Exact(unit, transfer) && IndexOk() && unit >= 1 && unit % PageSize == 0 && transfer >= 0
      ensures NaturallyAligned() <==> unit != 5 * PageSize
    {
      hide ClassesOk, ExactTo, AllOk, AllGrid, Smallest, ClassIndex, IsPower;
      var n := numClasses;
      assert Built(toSize[..], toPages[..], n, spans, unit, transfer);
      if unit == 5 * PageSize {
        var c := classArray[ClassIndex(6144)];
        assert Smallest(toSize[..], n, c, 6144);
        MisalignedClass(toSize[..], toPages[..], n, spans, transfer, c);
        ClassNumber(6144);
        assert toSize[c] == toSize[..][c] == 6656;
        Kilo();
        assert !Aligned(6144, 1024);
      } else {
        forall align, size | IsPower(align) && 16 <= align <= size < PageSize && size % align == 0 ensures Aligned(size, align) {
          var c := classArray[ClassIndex(size)];
          assert Smallest(toSize[..], n, c, size);
          AlignedClass(toSize[..], toPages[..], n, spans, unit, transfer, c, size, align);
          ClassNumber(size);
          assert toSize[c] == toSize[..][c];
        }
      }
    }

    /** The table for a system page size and a transfer count.  It is refused, by the check of
        natural alignment, if and only if the smallest span is five pages. */
    method Init(native: int, transfer: int) returns (ok: bool)
      requires Arrays() && native >= 0 && transfer >= 0
      modifies this, classArray, toSize, toPages, toMove
      ensures TableOk(SmallestSpan(native), transfer) && Exact(SmallestSpan(native), transfer) && IndexOk()
      ensures minSpanPages * PageSize == SmallestSpan(native)
      ensures ok <==> NaturallyAligned()
      ensures ok <==> SmallestSpan(native) != 5 * PageSize
      ensures ok ==> forall c :: 1 <= c < numClasses ==> toMove[c] == NumMoveSize(toSize[c], transfer)
    {
      hide ClassesOk, Smallest, ClassIndex, NumMoveSize, ExactTo, AllOk, AllGrid;
      var unit := if native > PageSize then native else PageSize;
      if unit > PageSize && unit % PageSize != 0 {
        unit := PageSize;
      }
      minSpanPages := unit / PageSize;
      BuildClasses(unit, transfer);
      FillIndex(unit, transfer);
      AlignedUnless(unit, transfer);
      ok := CheckAlignment();
      if !ok {
        return;
      }
      FillMoves(unit, transfer);
    }

    method FillMoves(ghost unit: int, transfer: int)
      requires TableOk(unit, transfer) && Exact(unit, transfer) && IndexOk() && NaturallyAligned() && transfer >= 0
      modifies toMove
      ensures TableOk(unit, transfer) && Exact(unit, transfer) && IndexOk() && NaturallyAligned()
      ensures forall c :: 1 <= c < numClasses ==> toMove[c] == NumMoveSize(toSize[c], transfer)
    {
      hide ClassesOk, Smallest, ClassIndex, NumMoveSize, ExactTo, AllOk, AllGrid, NaturallyAligned, IndexOk;
      var c := 1;
      while c < numClasses
        invariant 1 <= c <= numClasses && TableOk(unit, transfer) && Exact(unit, transfer) && IndexOk() && NaturallyAligned()
        invariant forall d :: 1 <= d < c ==> toMove[d] == NumMoveSize(toSize[d], transfer)
      {
        toMove[c] := NumMoveSize(toSize[c], transfer);
        c := c + 1;
      }
    }

    /** The class for a request, or none if it is too large for a class. */
    method GetSizeClass(size: int) returns (r: Option<int>)
      requires IndexOk() && size >= 0
      ensures r.Some? <==> size <= MaxSize
      ensures r.Some? ==> Smallest(toSize[..], numClasses, r.value, size)
    {
      hide ClassIndex;
      if size > MaxSize {
        return None;
      }
      return Some(classArray[ClassIndex(size)]);
    }

    method PagesFor(size: int, unit: int, transfer: int) returns (pages: int)
      requires 8 <= size <= MaxSize && unit >= 1 && unit % PageSize == 0 && transfer >= 0
      requires size % 8 == 0 && (size > MaxSmallSize ==> size % 128 == 0)
      ensures ClassOk(size, pages, unit, transfer)
    {
      var blocks := NumMoveSize(size, transfer) / 4;
      var span, k := SpanFor(size, unit, blocks);
      WholePages(span, unit, k);
      pages := span / PageSize;
    }
  }

  lemma NoneBetween(align: int, size: int)
    requires align >= 1 && size % align == 0
    ensures forall s :: size < s < size + align ==> s % align != 0
  {
    forall s | size < s < size + align ensures s % align != 0 {
      if s % align == 0 { NextMultiple(align, size, s); }
    }
  }

  lemma NextAligned(align: int, size: int)
    requires align >= 1 && size % align == 0
    ensures (size + align) % align == 0
  {
    DivMod(size, align);
    Multiple(size / align + 1, align);
    assert size + align == (size / align + 1) * align;
  }

  lemma Kilo()
    ensures IsPower(1024)
  {
  }

  lemma WholePages(span: int, unit: int, k: int)
    requires k >= 1 && unit >= 1 && unit % PageSize == 0 && span == Times(k, unit)
    ensures span / PageSize >= 1 && (span / PageSize) * PageSize == span
  {
    var u := unit / PageSize;
    assert unit == u * PageSize && u >= 1;
    assert span == (k * u) * PageSize;
    Scale(k, 1, u);
  }

  lemma NextIs(size: int)
    ensures NextSize(size) == size + AlignOf(size)
  {
  }

  lemma FirstSize()
    ensures OnGrid(8, 1) && Rank(8, 1) == 1
  {
  }

  /** The larger of the two page sizes, if it is a multiple of ours. */
  function SmallestSpan(native: int): int {
    if native > PageSize && native % PageSize == 0 then native else PageSize
  }

  /** The smallest class is at most any other class that holds the size. */
  lemma SmallestIsLeast(sizes: seq<int>, pages: seq<int>, n: int, unit: int, transfer: int, s: int, c: int, d: int)
    requires ClassesOk(sizes, pages, n, unit, transfer) && Smallest(sizes, n, c, s) && 1 <= d < n && s <= sizes[d]
    ensures c <= d && sizes[c] <= sizes[d]
  {
    hide ClassesOk;
    if d < c - 1 { Rising(sizes, pages, n, unit, transfer, d, c - 1); }
    if c < d { Rising(sizes, pages, n, unit, transfer, c, d); }
  }

  /** The shortest good span is not much longer than it has to be. */
  lemma SpanShort(size: int, unit: int, blocks: int, span: int)
    requires size >= 1 && unit >= 1 && blocks >= 0 && LeastSpan(size, unit, blocks, span)
    ensures unit <= span <= unit + 8 * size + blocks * size
  {
    hide GoodSpan, Times;
    var k :| k >= 1 && span == Times(k, unit) && forall j :: 1 <= j < k ==> !GoodSpan(size, Times(j, unit), blocks);
    OneMore(k - 1, unit);
    assert Times(k - 1, unit) >= 0 by { TimesPositive(k - 1, unit); }
    assert blocks * size >= 0 by { Scale(size, 0, blocks); }
    if k > 1 {
      NotGood(size, Times(k - 1, unit), blocks);
    }
  }

  lemma TimesPositive(k: int, unit: int)
    requires k >= 0 && unit >= 1
    ensures Times(k, unit) >= 0 && (k == 0 ==> Times(k, unit) == 0)
  {
    Scale(unit, 0, k);
  }

  /** A class of the table, with a transfer count of at least one, is one the caches can work with. */
  lemma ClassUsable(size: int, pages: int, unit: int, transfer: int)
    requires ClassOk(size, pages, unit, transfer) && transfer >= 1
    ensures Class(size, pages, NumMoveSize(size, transfer)).Ok() && NumMoveSize(size, transfer) <= 8192
  {
    hide LeastSpan;
    LeftoverBound(size, pages, unit, transfer);
    var n := 0x1_0000 / size;
    assert n >= 8193 ==> size * n >= 8 * 8193 by { if n >= 8193 { Scale(n, 8, size); } }
    assert size * n <= 0x1_0000;
  }
}
