/** The free lists of one location: an exact-size list for each length up to
    `MaxPages`, and an ordered set for the longer spans. */
module FreeLists {
  import opened Spans

  const MaxPages: int := 128

  datatype Bins = Bins(small: seq<seq<SpanId>>, large: set<SpanId>)

  /** Whether span `i` belongs on the lists for location `l`. */
  ghost predicate Belongs(t: Table, hole: set<SpanId>, l: Location, i: SpanId) {
    i in t && i !in hole && t[i].location == l
  }

  /** Every span of location `l` (outside `hole`) sits, once, in the bin for its length,
      and the bins hold nothing else. */
  ghost predicate Filed(t: Table, hole: set<SpanId>, l: Location, b: Bins) {
    && |b.small| == MaxPages
    && (forall k :: 0 <= k < MaxPages ==> Distinct(b.small[k]))
    && (forall k, i :: 0 <= k < MaxPages ==>
          (i in b.small[k] <==> Belongs(t, hole, l, i) && t[i].length == k + 1))
    && (forall i :: i in b.large <==> Belongs(t, hole, l, i) && t[i].length > MaxPages)
  }

  function EmptyBins(): Bins {
    Bins(seq(MaxPages, k => []), {})
  }

  function Put(b: Bins, i: SpanId, length: int): Bins
    requires |b.small| == MaxPages && length >= 1
  {
    if length > MaxPages then b.(large := b.large + {i})
    else b.(small := b.small[length - 1 := [i] + b.small[length - 1]])
  }

  function Take(b: Bins, i: SpanId, length: int): Bins
    requires |b.small| == MaxPages && length >= 1
  {
    if length > MaxPages then b.(large := b.large - {i})
    else b.(small := b.small[length - 1 := Unlink(b.small[length - 1], i)])
  }

  lemma PutFiles(t: Table, hole: set<SpanId>, l: Location, b: Bins, i: SpanId)
    requires i in t && i in hole && t[i].length >= 1 && Filed(t, hole, l, b)
    ensures Filed(t, hole - {i}, l, if t[i].location == l then Put(b, i, t[i].length) else b)
  {
    assert forall k :: Belongs(t, hole, l, k) ==> k != i;
    assert forall k :: Belongs(t, hole - {i}, l, k) <==> Belongs(t, hole, l, k) || (k == i && t[i].location == l);
  }

  lemma TakeFiles(t: Table, hole: set<SpanId>, l: Location, b: Bins, i: SpanId)
    requires i in t && i !in hole && t[i].length >= 1 && Filed(t, hole, l, b)
    ensures Filed(t, hole + {i}, l, if t[i].location == l then Take(b, i, t[i].length) else b)
  {
    assert forall k :: Belongs(t, hole + {i}, l, k) <==> Belongs(t, hole, l, k) && k != i;
    if t[i].location == l && t[i].length <= MaxPages {
      UnlinkFacts(b.small[t[i].length - 1], i);
    }
  }

  lemma Sizes(t: Table, hole: set<SpanId>, l: Location, b: Bins, i: SpanId)
    requires Tiled(t) && i in t && Filed(t, hole, l, b)
    ensures t[i].length >= 1 && |b.small| == MaxPages
  {
  }

  /** Filing looks only at spans outside the hole. */
  lemma Refile(t: Table, hole: set<SpanId>, u: Table, hole': set<SpanId>, l: Location, b: Bins)
    requires Filed(t, hole, l, b)
    requires forall k :: Belongs(t, hole, l, k) <==> Belongs(u, hole', l, k)
    requires forall k :: Belongs(t, hole, l, k) ==> k in u && u[k].length == t[k].length
    ensures Filed(u, hole', l, b)
  {
  }

  /** The order of the sets of large spans: by length, then by address. */
  predicate BestFitLess(a: Span, b: Span) {
    a.length < b.length || (a.length == b.length && a.start < b.start)
  }

  ghost predicate NoBetter(t: Table, large: set<SpanId>, n: int, i: SpanId)
    requires i in t && large <= t.Keys
  {
    forall k :: k in large && k != i && t[k].length >= n ==> BestFitLess(t[i], t[k])
  }

  /** First member of the ordered set at or after the bound (length `n`, page 0).
      With `n == 0` this is the first member. */
  method UpperBound(t: Table, large: set<SpanId>, n: int) returns (r: Option<SpanId>)
    requires Tiled(t) && large <= t.Keys
    ensures r.None? ==> forall k :: k in large ==> t[k].length < n
    ensures r.Some? ==> r.value in large && t[r.value].length >= n && NoBetter(t, large, n, r.value)
  {
    r := None;
    var rest := large;
    while rest != {}
      invariant rest <= large
      invariant r.None? ==> forall k :: k in large - rest ==> t[k].length < n
      invariant r.Some? ==> r.value in large - rest && t[r.value].length >= n && NoBetter(t, large - rest, n, r.value)
      decreases rest
    {
      var k :| k in rest;
      if t[k].length >= n && (r.None? || BestFitLess(t[k], t[r.value])) {
        r := Some(k);
      } else if r.Some? {
        assert Apart(t[k], t[r.value]);
      }
      rest := rest - {k};
    }
  }

  /** Bin number `k` of the round robin: lists 0 to MaxPages - 1, then the large set. */
  predicate BinEmpty(b: Bins, k: int) {
    if k == MaxPages then b.large == {} else 0 <= k < |b.small| ==> b.small[k] == []
  }

  /** Where the round robin stands `i` lists after list `from`. */
  function Spot(from: int, i: int): (k: int)
    ensures 0 <= k <= MaxPages
  {
    (from + i) % (MaxPages + 1)
  }

  lemma SpotStep(from: int, i: int, index: int)
    requires 0 <= index <= MaxPages + 1 && Spot(index, 0) == Spot(from, i)
    ensures Spot(from, i) == if index > MaxPages then 0 else index
    ensures Spot(Spot(from, i) + 1, 0) == Spot(from, i + 1)
  {
  }

  /** A full round that met only empty lists leaves no span of that location at all. */
  lemma RoundCovers(t: Table, l: Location, b: Bins, from: int)
    requires Tiled(t) && Filed(t, {}, l, b) && 0 <= from <= MaxPages
    requires forall i :: 0 <= i <= MaxPages ==> BinEmpty(b, Spot(from, i))
    ensures forall k :: k in t ==> t[k].location != l
  {
    forall k | k in t ensures t[k].location != l {
      var bin := if t[k].length > MaxPages then MaxPages else t[k].length - 1;
      var i := if bin >= from then bin - from else bin - from + MaxPages + 1;
      assert Spot(from, i) == bin;
      assert BinEmpty(b, bin);
      assert !Belongs(t, {}, l, k);
    }
  }
}
