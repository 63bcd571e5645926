/** The radix trees that map page numbers to descriptors, for any lengths of their nodes. */
module PageMaps {
  import opened Spans

  const WordLimit: int := 0x1_0000_0000_0000_0000

  type Leaf<V> = seq<Option<V>>

  // ---------------------------------------------------------------- page and leaf numbers

  lemma SplitPage(k: int, i: int, j: int, length: int)
    requires 0 <= j < length && k == i * length + j
    ensures k / length == i && k % length == j
  {
    var q, r := k / length, k % length;
    assert length * (i - q) == r - j;
    assert i - q >= 1 ==> length * (i - q) >= length;
    assert i - q <= -1 ==> length * (i - q) <= -length;
  }

  lemma PageParts(k: int, length: int)
    requires length >= 1 && k >= 0
    ensures k / length >= 0 && 0 <= k % length < length && k == (k / length) * length + k % length
  {
    var q := k / length;
    assert k == length * q + k % length;
    assert q <= -1 ==> length * q <= -length;
  }

  lemma LaterLeaf(k: int, i: int, length: int)
    requires length >= 1 && k >= 0
    ensures k >= i * length <==> k / length >= i
  {
    PageParts(k, length);
    var q := k / length;
    if q >= i { Ordered(length, i, q); } else { Ordered(length, q, i - 1); }
  }

  lemma Ordered(c: int, a: int, b: int)
    requires c >= 0 && a <= b
    ensures c * a <= c * b
  {
  }

  function LeafOf(k: int, length: int): int
    requires length >= 1
  {
    k / length
  }

  function FirstPage(i: int, length: int): int { i * length }

  /** Page numbers and leaf numbers are in the same order. */
  lemma LeafOrder(k: int, i: int, length: int)
    requires length >= 1 && k >= 0 && i >= 0
    ensures k >= FirstPage(i, length) <==> LeafOf(k, length) >= i
    ensures LeafOf(k, length) >= 0 && LeafOf(FirstPage(i, length), length) == i && FirstPage(i, length) >= 0
    ensures k < FirstPage(LeafOf(k, length) + 1, length) <= k + length
  {
    LaterLeaf(k, i, length);
    LaterLeaf(k, k / length + 1, length);
    PageParts(k, length);
    SplitPage(i * length, i, 0, length);
  }

  // ---------------------------------------------------------------- rows of leaves

  function EmptyLeaf<V>(length: nat): Leaf<V> { seq(length, _ => None) }

  ghost predicate RowOk<V>(row: seq<Option<Leaf<V>>>, length: int) {
    && length >= 1 && |row| >= 1 && |row| * length < WordLimit
    && forall i :: 0 <= i < |row| && row[i].Some? ==> |row[i].value| == length
  }

  /** The value at page `k`: the map the tree stands for. */
  ghost function View<V>(row: seq<Option<Leaf<V>>>, length: int, k: int): Option<V>
    requires RowOk(row, length) && k >= 0
  {
    if k / length >= |row| || k / length < 0 || row[k / length].None? then None
    else row[k / length].value[k % length]
  }

  ghost predicate HasLeaf<V>(row: seq<Option<Leaf<V>>>, j: int) {
    0 <= j < |row| && row[j].Some?
  }

  /** Page `k` can be set. */
  ghost predicate Ensured<V>(row: seq<Option<Leaf<V>>>, length: int, k: int)
    requires length >= 1
  {
    HasLeaf(row, k / length)
  }

  lemma SetView<V(!new)>(row: seq<Option<Leaf<V>>>, length: int, k: int, v: Option<V>)
    requires RowOk(row, length) && k >= 0 && Ensured(row, length, k)
    ensures 0 <= k % length < |row[k / length].value|
    ensures var row' := row[k / length := Some(row[k / length].value[k % length := v])];
      RowOk(row', length) && (forall j :: j >= 0 ==> View(row', length, j) == if j == k then v else View(row, length, j))
      && (forall j :: HasLeaf(row', j) == HasLeaf(row, j))
  {
    PageParts(k, length);
    var row' := row[k / length := Some(row[k / length].value[k % length := v])];
    assert RowOk(row', length);
    forall j | j >= 0 ensures View(row', length, j) == if j == k then v else View(row, length, j) {
      PageParts(j, length);
    }
  }

  /** Leaves have only been added, those are empty, and no value has changed. */
  ghost predicate Grown<V(!new)>(row: seq<Option<Leaf<V>>>, was: seq<Option<Leaf<V>>>, length: int) {
    && RowOk(row, length) && RowOk(was, length) && |row| == |was|
    && (forall i :: 0 <= i < |row| && row[i] != was[i] ==> was[i] == None && row[i] == Some(EmptyLeaf(length)))
    && (forall k :: k >= 0 ==> View(row, length, k) == View(was, length, k))
  }

  lemma AddLeaf<V(!new)>(row: seq<Option<Leaf<V>>>, was: seq<Option<Leaf<V>>>, length: int, i: int)
    requires Grown(row, was, length) && 0 <= i < |row| && row[i].None?
    ensures var row' := row[i := Some(EmptyLeaf(length))];
      Grown(row', was, length) && (forall j :: HasLeaf(row, j) ==> HasLeaf(row', j)) && HasLeaf(row', i)
  {
    var row' := row[i := Some(EmptyLeaf(length))];
    assert RowOk(row', length);
    forall k | k >= 0 ensures View(row', length, k) == View(was, length, k) {
      PageParts(k, length);
      assert View(row, length, k) == View(was, length, k);
    }
  }

  /** All leaves from that of `start` to the one before `next` are there. */
  ghost predicate Leaves<V>(row: seq<Option<Leaf<V>>>, length: int, start: int, next: int)
    requires length >= 1
  {
    forall j :: LeafOf(start, length) <= j < next ==> HasLeaf(row, j)
  }

  lemma LeavesEnsure<V>(row: seq<Option<Leaf<V>>>, length: int, start: int, next: int)
    requires RowOk(row, length) && start >= 0 && next >= 0 && Leaves(row, length, start, next)
    ensures forall k :: start <= k < FirstPage(next, length) ==> Ensured(row, length, k)
  {
    hide LeafOf, FirstPage;
    forall k | start <= k < FirstPage(next, length) ensures Ensured(row, length, k) {
      LeafOrder(start, 0, length);
      LeafOrder(start, LeafOf(start, length), length);
      LeafOrder(k, LeafOf(start, length), length);
      LeafOrder(k, next, length);
      assert HasLeaf(row, LeafOf(k, length));
      assert LeafOf(k, length) == k / length by { SameLeaf(k, length); }
    }
  }

  lemma SameLeaf(k: int, length: int)
    requires length >= 1
    ensures LeafOf(k, length) == k / length
  {
  }

  lemma Within(next: int, top: int, length: int)
    requires length >= 1 && next <= top
    ensures FirstPage(next, length) <= FirstPage(top, length) == top * length
  {
    assert length * next <= length * top;
  }

  /** What a walk over the leaves for pages `start` to `last` achieves. */
  ghost predicate Ensures<V(!new)>(row: seq<Option<Leaf<V>>>, was: seq<Option<Leaf<V>>>, length: int, start: int,
          n: int, ok: bool)
    requires RowOk(was, length)
  {
    && Grown(row, was, length)
    && (ok && start + n <= WordLimit ==> forall k :: start <= k < start + n ==> Ensured(row, length, k))
    && (start + n > WordLimit ==> ok && row == was)
  }

  /** A value found at page `found`, the first from `p` on, or none before page `end`. */
  ghost predicate FirstFrom<V>(row: seq<Option<Leaf<V>>>, length: int, p: int, end: int, v: Option<V>, found: int)
    requires RowOk(row, length) && p >= 0
  {
    if v == None then forall j :: p <= j < end ==> View(row, length, j) == None
    else p <= found && View(row, length, found) == v && forall j :: p <= j < found ==> View(row, length, j) == None
  }

  /** Scans a leaf from page `p` on. */
  method ScanLeaf<V>(leaf: Option<Leaf<V>>, length: int, p: int, i: int, ghost row: seq<Option<Leaf<V>>>)
    returns (v: Option<V>, ghost found: int)
    requires RowOk(row, length) && p >= 0 && i == LeafOf(p, length) && 0 <= i < |row| && row[i] == leaf
    ensures FirstFrom(row, length, p, FirstPage(i + 1, length), v, found)
  {
    PageParts(p, length);
    found := p;
    if leaf.Some? {
      var j := p % length;
      while j < length
        invariant p % length <= j <= length && found == i * length + j
        invariant forall q :: p <= q < found ==> View(row, length, q) == None
      {
        SplitPage(found, i, j, length);
        if leaf.value[j].Some? {
          return leaf.value[j], found;
        }
        j, found := j + 1, found + 1;
      }
    } else {
      NoLeaf(row, length, p, i);
    }
    return None, found;
  }

  lemma NoLeaf<V>(row: seq<Option<Leaf<V>>>, length: int, p: int, i: int)
    requires RowOk(row, length) && 0 <= p && LeafOf(p, length) >= i && 0 <= i < |row| && row[i] == None
    ensures forall j :: p <= j < FirstPage(i + 1, length) ==> View(row, length, j) == None
  {
    forall j | p <= j < FirstPage(i + 1, length) ensures View(row, length, j) == None {
      LaterLeaf(j, i, length);
      LaterLeaf(p, i, length);
      LaterLeaf(j, i + 1, length);
    }
  }

  lemma NothingBeyond<V>(row: seq<Option<Leaf<V>>>, length: int, p: int)
    requires RowOk(row, length) && p >= |row| * length
    ensures forall j :: j >= p ==> View(row, length, j) == None
  {
    forall j | j >= p ensures View(row, length, j) == None { LaterLeaf(j, |row|, length); }
  }

  // ---------------------------------------------------------------- two levels

  class PageMap2<V(!new)> {
    const leafLength: int
    const rootLength: int
    var root: seq<Option<Leaf<V>>>

    ghost predicate Valid()
      reads this
    {
      RowOk(root, leafLength) && |root| == rootLength
    }

    constructor (leaf: int, top: int)
      requires leaf >= 1 && top >= 1 && top * leaf < WordLimit
      ensures Valid() && leafLength == leaf && rootLength == top && forall k :: k >= 0 ==> View(root, leafLength, k) == None
    {
      leafLength, rootLength := leaf, top;
      root := seq(top, _ => None);
    }

    method Get(k: int) returns (v: Option<V>)
      requires Valid() && 0 <= k < WordLimit
      ensures v == View(root, leafLength, k) && (k >= rootLength * leafLength ==> v == None)
    {
      LaterLeaf(k, rootLength, leafLength);
      PageParts(k, leafLength);
      var i1, i2 := k / leafLength, k % leafLength;
      if k >= rootLength * leafLength || root[i1].None? {
        return None;
      }
      return root[i1].value[i2];
    }

    method Set(k: int, v: Option<V>)
      requires Valid() && k >= 0 && Ensured(root, leafLength, k)
      modifies this
      ensures Valid() && forall j :: j >= 0 ==> View(root, leafLength, j) == if j == k then v else View(old(root), leafLength, j)
      ensures forall j :: HasLeaf(root, j) == HasLeaf(old(root), j)
    {
      SetView(root, leafLength, k, v);
      var i1, i2 := k / leafLength, k % leafLength;
      root := root[i1 := Some(root[i1].value[i2 := v])];
    }

    /** Makes pages `start` to `start + n - 1` settable.  `memory` is how many leaves can be had. */
    method Ensure(start: int, n: int, memory: nat) returns (ok: bool)
      requires Valid() && 0 <= start < WordLimit && 0 <= n < WordLimit
      modifies this
      ensures Valid() && Ensures(root, old(root), leafLength, start, n, ok)
      ensures memory >= rootLength && 1 <= start + n <= WordLimit ==> (ok <==> start + n <= rootLength * leafLength || n == 0)
    {
      hide LeafOf, FirstPage, View, EmptyLeaf;
      var last := (start + n - 1) % WordLimit;
      if last < start {
        return true;
      }
      ghost var next;
      ok, next := EnsureLeaves(start, last, memory);
      LeavesEnsure(root, leafLength, start, next);
      if ok { Within(next, rootLength, leafLength); }
      Within(rootLength, rootLength, leafLength);
    }

    /** The loop over the leaves of pages `start` to `last`. */
    method EnsureLeaves(start: int, last: int, memory: nat) returns (ok: bool, ghost next: int)
      requires Valid() && 0 <= start <= last
      modifies this
      ensures Valid() && Grown(root, old(root), leafLength) && next >= 0 && Leaves(root, leafLength, start, next)
      ensures ok ==> last < FirstPage(next, leafLength) && next <= rootLength
      ensures !ok && memory >= rootLength ==> last >= FirstPage(rootLength, leafLength)
    {
      hide LeafOf, FirstPage, View, EmptyLeaf;
      ghost var was := root;
      var key, left := start, memory;
      LeafOrder(start, 0, leafLength);
      next := LeafOf(start, leafLength);
      while key <= last
        invariant Valid() && Grown(root, was, leafLength) && next >= 0 && key >= 0 && Leaves(root, leafLength, start, next)
        invariant (key == start && next == LeafOf(start, leafLength)) || (key == FirstPage(next, leafLength) && next <= rootLength)
        invariant left >= memory - next
        decreases last + leafLength - key
      {
        LeafOrder(key, next, leafLength);
        LeafOrder(key, rootLength, leafLength);
        var i1 := LeafOf(key, leafLength);
        if i1 >= rootLength {
          return false, next;
        }
        if root[i1].None? {
          if left == 0 {
            return false, next;
          }
          left := left - 1;
          AddLeaf(root, was, leafLength, i1);
          root := root[i1 := Some(EmptyLeaf(leafLength))];
        }
        LeafOrder(key, i1, leafLength);
        key, next := FirstPage(i1 + 1, leafLength), i1 + 1;
      }
      return true, next;
    }

    /** The first value at or after page `k`. */
    method Next(k: int) returns (v: Option<V>)
      requires Valid() && k >= 0
      ensures v == None ==> forall j :: j >= k ==> View(root, leafLength, j) == None
      ensures v.Some? ==> exists found :: FirstFrom(root, leafLength, k, found, v, found)
    {
      hide LeafOf, FirstPage, View;
      var p := k;
      while p < rootLength * leafLength
        invariant p >= k && forall j :: k <= j < p ==> View(root, leafLength, j) == None
        decreases rootLength * leafLength + leafLength - p
      {
        Within(rootLength, rootLength, leafLength);
        LeafOrder(p, rootLength, leafLength);
        var i1 := LeafOf(p, leafLength);
        ghost var found;
        v, found := ScanLeaf(root[i1], leafLength, p, i1, root);
        if v.Some? {
          assert FirstFrom(root, leafLength, k, found, v, found);
          return;
        }
        LeafOrder(p, i1 + 1, leafLength);
        p := FirstPage(i1 + 1, leafLength);
      }
      NothingBeyond(root, leafLength, p);
      return None;
    }
  }

  // ---------------------------------------------------------------- three levels

  type Node<V> = seq<Option<Leaf<V>>>

  ghost predicate NodesOk<V>(root: seq<Option<Node<V>>>, m: int) {
    m >= 1 && |root| == m && forall i :: 0 <= i < m && root[i].Some? ==> |root[i].value| == m
  }

  ghost function SlotAt<V>(root: seq<Option<Node<V>>>, m: int, j: int): Option<Leaf<V>>
    requires NodesOk(root, m)
  {
    if 0 <= j / m < m && root[j / m].Some? && 0 <= j % m < m then root[j / m].value[j % m] else None
  }

  /** The leaves of all nodes in one row. */
  ghost function Row<V>(root: seq<Option<Node<V>>>, m: int): (row: seq<Option<Leaf<V>>>)
    requires NodesOk(root, m)
    ensures |row| == m * m
  {
    seq(m * m, j => SlotAt(root, m, j))
  }

  lemma Regroup(i: int, j: int, b: int, length: int, m: int)
    requires length >= 1 && m >= 1 && 0 <= j < m && 0 <= b < length
    ensures (i * m + j) * length + b == i * (length * m) + (j * length + b)
    ensures 0 <= j * length + b < length * m
  {
    assert i * m * length == i * (length * m);
    assert j * length <= (m - 1) * length;
    assert j * length >= 0;
    assert (m - 1) * length + length == length * m;
  }

  /** Splitting a page number in one go or leaf by leaf is the same. */
  lemma Nested(k: int, length: int, m: int)
    requires k >= 0 && length >= 1 && m >= 1
    ensures length * m >= 1 && k / (length * m) == (k / length) / m
  {
    var a, b := k / length, k % length;
    PageParts(k, length);
    PageParts(a, m);
    Regroup(a / m, a % m, b, length, m);
    SplitPage(k, a / m, (a % m) * length + b, length * m);
  }

  lemma RowIndex(a: int, m: int)
    requires a >= 0 && m >= 1
    ensures a / m >= 0 && 0 <= a % m < m && (a < m * m <==> a / m < m)
  {
    PageParts(a, m);
    LaterLeaf(a, m, m);
  }

  lemma SetSlot<V>(root: seq<Option<Node<V>>>, m: int, a: int, leaf: Option<Leaf<V>>)
    requires NodesOk(root, m) && 0 <= a < m * m && 0 <= a / m < m && 0 <= a % m < m && root[a / m].Some?
    ensures var root' := root[a / m := Some(root[a / m].value[a % m := leaf])];
      NodesOk(root', m) && Row(root', m) == Row(root, m)[a := leaf]
  {
    var root' := root[a / m := Some(root[a / m].value[a % m := leaf])];
    assert NodesOk(root', m);
    forall j | 0 <= j < m * m ensures Row(root', m)[j] == Row(root, m)[a := leaf][j] {
      RowIndex(j, m);
      PageParts(j, m);
      PageParts(a, m);
    }
  }

  /** A new empty node changes no leaf. */
  lemma AddNode<V>(root: seq<Option<Node<V>>>, m: int, i: int)
    requires NodesOk(root, m) && 0 <= i < m && root[i].None?
    ensures var root' := root[i := Some(seq(m, _ => None))];
      NodesOk(root', m) && Row(root', m) == Row(root, m)
  {
    var root' := root[i := Some(seq(m, _ => None))];
    assert NodesOk(root', m);
    forall j | 0 <= j < m * m ensures Row(root', m)[j] == Row(root, m)[j] { RowIndex(j, m); }
  }

  class PageMap3<V(!new)> {
    const leafLength: int
    const interior: int                      // length of the root and of every node
    var root: seq<Option<Node<V>>>

    ghost predicate Valid()
      reads this
    {
      NodesOk(root, interior) && RowOk(Row(root, interior), leafLength)
    }

    ghost function Flat(): seq<Option<Leaf<V>>>
      requires Valid()
      reads this
    {
      Row(root, interior)
    }

    constructor (leaf: int, m: int)
      requires leaf >= 1 && m >= 1 && (m * m) * leaf < WordLimit
      ensures Valid() && leafLength == leaf && interior == m && forall k :: k >= 0 ==> View(Flat(), leafLength, k) == None
    {
      leafLength, interior := leaf, m;
      root := seq(m, _ => None);
    }

    method Get(k: int) returns (v: Option<V>)
      requires Valid() && 0 <= k < WordLimit
      ensures v == View(Flat(), leafLength, k) && (k >= (interior * interior) * leafLength ==> v == None)
    {
      hide Row;
      Nested(k, leafLength, interior);
      PageParts(k, leafLength);
      RowIndex(k / leafLength, interior);
      LaterLeaf(k, interior * interior, leafLength);
      RowAt(k / leafLength);
      var i1, i2, i3 := k / (leafLength * interior), (k / leafLength) % interior, k % leafLength;
      if k >= (interior * interior) * leafLength || root[i1].None? || root[i1].value[i2].None? {
        return None;
      }
      return root[i1].value[i2].value[i3];
    }

    lemma RowAt(a: int)
      requires Valid() && a >= 0
      ensures a < |Flat()| ==> Flat()[a] == SlotAt(root, interior, a)
    {
    }

    method Set(k: int, v: Option<V>)
      requires Valid() && k >= 0 && Ensured(Flat(), leafLength, k)
      modifies this
      ensures Valid() && forall j :: j >= 0 ==> View(Flat(), leafLength, j) == if j == k then v else View(old(Flat()), leafLength, j)
      ensures forall j :: HasLeaf(Flat(), j) == HasLeaf(old(Flat()), j)
    {
      hide Row, View;
      Nested(k, leafLength, interior);
      PageParts(k, leafLength);
      RowIndex(k / leafLength, interior);
      RowAt(k / leafLength);
      SetView(Flat(), leafLength, k, v);
      var i1, i2, i3 := k / (leafLength * interior), (k / leafLength) % interior, k % leafLength;
      var leaf := root[i1].value[i2].value;
      SetSlot(root, interior, k / leafLength, Some(leaf[i3 := v]));
      root := root[i1 := Some(root[i1].value[i2 := Some(leaf[i3 := v])])];
    }

    /** Makes pages `start` to `start + n - 1` settable.  `memory` is how many nodes can be had. */
    method Ensure(start: int, n: int, memory: nat) returns (ok: bool)
      requires Valid() && 0 <= start < WordLimit && 0 <= n < WordLimit
      modifies this
      ensures Valid() && Ensures(Flat(), old(Flat()), leafLength, start, n, ok)
      ensures memory >= 2 * (interior * interior) && 1 <= start + n <= WordLimit ==>
                (ok <==> start + n <= (interior * interior) * leafLength || n == 0)
    {
      hide LeafOf, FirstPage, View, EmptyLeaf, Row;
      var last := (start + n - 1) % WordLimit;
      if last < start {
        return true;
      }
      ghost var next;
      ok, next := EnsureLeaves(start, last, memory);
      LeavesEnsure(Flat(), leafLength, start, next);
      if ok { Within(next, interior * interior, leafLength); }
      Within(interior * interior, interior * interior, leafLength);
    }

    method EnsureLeaves(start: int, last: int, memory: nat) returns (ok: bool, ghost next: int)
      requires Valid() && 0 <= start <= last
      modifies this
      ensures Valid() && Grown(Flat(), old(Flat()), leafLength) && next >= 0 && Leaves(Flat(), leafLength, start, next)
      ensures ok ==> last < FirstPage(next, leafLength) && next <= interior * interior
      ensures !ok && memory >= 2 * (interior * interior) ==> last >= FirstPage(interior * interior, leafLength)
    {
      hide LeafOf, FirstPage, View, EmptyLeaf, Row;
      ghost var was, top := Flat(), interior * interior;
      var key, left := start, memory;
      LeafOrder(start, 0, leafLength);
      next := LeafOf(start, leafLength);
      while key <= last
        invariant Valid() && Grown(Flat(), was, leafLength) && next >= 0 && key >= 0 && Leaves(Flat(), leafLength, start, next)
        invariant (key == start && next == LeafOf(start, leafLength)) || (key == FirstPage(next, leafLength) && next <= top)
        invariant 0 <= left && left >= memory - 2 * next
        decreases last + leafLength - key
      {
        LeafOrder(key, next, leafLength);
        LeafOrder(key, top, leafLength);
        RowIndex(LeafOf(key, leafLength), interior);
        TopIndex(key);
        var i1, i2 := key / (leafLength * interior), LeafOf(key, leafLength) % interior;
        if i1 >= interior || i2 >= interior {
          return false, next;
        }
        var made;
        made, left := EnsureLeaf(LeafOf(key, leafLength), i1, i2, left, was);
        if !made {
          return false, next;
        }
        LeafOrder(key, LeafOf(key, leafLength), leafLength);
        next := LeafOf(key, leafLength) + 1;
        key := FirstPage(LeafOf(key, leafLength) + 1, leafLength);
      }
      return true, next;
    }

    lemma TopIndex(key: int)
      requires Valid() && key >= 0
      ensures leafLength * interior >= 1 && key / (leafLength * interior) == LeafOf(key, leafLength) / interior
    {
      Nested(key, leafLength, interior);
    }

    /** Makes the node and the leaf of leaf number `a`, as far as they are missing. */
    method EnsureLeaf(ghost a: int, i1: int, i2: int, memory: int,
            ghost was: seq<Option<Leaf<V>>>) returns (ok: bool, left: int)
      requires Valid() && Grown(Flat(), was, leafLength) && memory >= 0
      requires 0 <= a < interior * interior && i1 == a / interior < interior && i2 == a % interior && 0 <= i1 && 0 <= i2 < interior
      modifies this
      ensures Valid() && Grown(Flat(), was, leafLength) && forall j :: HasLeaf(old(Flat()), j) ==> HasLeaf(Flat(), j)
      ensures ok ==> HasLeaf(Flat(), a)
      ensures 0 <= left && memory - 2 <= left && (!ok ==> memory <= 1)
    {
      hide View, EmptyLeaf, Row;
      left := memory;
      if root[i1].None? {
        if left == 0 {
          return false, 0;
        }
        left := left - 1;
        AddNode(root, interior, i1);
        root := root[i1 := Some(seq(interior, _ => None))];
      }
      RowAt(a);
      if root[i1].value[i2].None? {
        if left == 0 {
          return false, 0;
        }
        left := left - 1;
        AddLeaf(Flat(), was, leafLength, a);
        SetSlot(root, interior, a, Some(EmptyLeaf(leafLength)));
        root := root[i1 := Some(root[i1].value[i2 := Some(EmptyLeaf(leafLength))])];
      }
      return true, left;
    }

    /** The first value at or after page `k`; nodes that are not there are skipped whole. */
    method Next(k: int) returns (v: Option<V>)
      requires Valid() && k >= 0
      ensures v == None ==> forall j :: j >= k ==> View(Flat(), leafLength, j) == None
      ensures v.Some? ==> exists found :: FirstFrom(Flat(), leafLength, k, found, v, found)
    {
      hide LeafOf, FirstPage, View, Row;
      ghost var top := interior * interior;
      var p := k;
      while p < (interior * interior) * leafLength
        invariant p >= k && forall j :: k <= j < p ==> View(Flat(), leafLength, j) == None
        decreases (interior * interior) * leafLength + leafLength * interior - p
      {
        Within(top, top, leafLength);
        LeafOrder(p, top, leafLength);
        RowIndex(LeafOf(p, leafLength), interior);
        TopIndex(p);
        var a := LeafOf(p, leafLength);
        var i1, i2 := p / (leafLength * interior), a % interior;
        if root[i1].None? {
          SkipNode(p, i1);
          p := (i1 + 1) * (leafLength * interior);
        } else {
          RowAt(a);
          ghost var found;
          v, found := ScanLeaf(root[i1].value[i2], leafLength, p, a, Flat());
          if v.Some? {
            assert FirstFrom(Flat(), leafLength, k, found, v, found);
            return;
          }
          LeafOrder(p, a + 1, leafLength);
          ShortLeaf();
          p := FirstPage(a + 1, leafLength);
        }
      }
      NothingBeyond(Flat(), leafLength, p);
      return None;
    }

    lemma ShortLeaf()
      requires Valid()
      ensures leafLength <= leafLength * interior
    {
      Regroup(0, 0, 0, leafLength, interior);
      assert leafLength * 1 <= leafLength * interior;
    }

    /** A missing node has no values. */
    lemma SkipNode(p: int, i1: int)
      requires Valid() && p >= 0 && leafLength * interior >= 1 && i1 == p / (leafLength * interior)
      requires 0 <= i1 < interior && root[i1].None?
      ensures p < (i1 + 1) * (leafLength * interior) <= p + leafLength * interior
      ensures forall j :: p <= j < (i1 + 1) * (leafLength * interior) ==> View(Flat(), leafLength, j) == None
    {
      var w := leafLength * interior;
      PageParts(p, w);
      assert (i1 + 1) * w == i1 * w + w;
      forall j | p <= j < (i1 + 1) * w ensures View(Flat(), leafLength, j) == None {
        LaterLeaf(j, i1, w);
        LaterLeaf(p, i1, w);
        LaterLeaf(j, i1 + 1, w);
        Nested(j, leafLength, interior);
        PageParts(j, leafLength);
        RowAt(j / leafLength);
      }
    }
  }
}
