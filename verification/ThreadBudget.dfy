/** The byte budget that all thread caches share, and the linked list of caches it is
    divided over.  Every method runs under the page heap lock. */
module ThreadBudget {
  const StealAmount: int := 0x1_0000
  const MaxThreadCache: int := 0x40_0000
  const DefaultOverall: int := 8 * MaxThreadCache
  const MinThreadCache: int := 0x8_0000
  const OverallLimit: int := 0x4000_0000
  const WordLimit: int := 0x1_0000_0000_0000_0000

  ghost function Sum(q: seq<int>): int {
    if q == [] then 0 else Sum(q[..|q| - 1]) + q[|q| - 1]
  }

  lemma {:induction false} SumUpdate(q: seq<int>, k: int, v: int)
    requires 0 <= k < |q|
    ensures Sum(q[k := v]) == Sum(q) - q[k] + v
    decreases |q|
  {
    var last := |q| - 1;
    if k < last {
      SumUpdate(q[..last], k, v);
      assert q[k := v][..last] == q[..last][k := v];
    } else {
      assert q[k := v][..last] == q[..last];
    }
  }

  lemma {:induction false} SumFront(v: int, q: seq<int>)
    ensures Sum([v] + q) == v + Sum(q)
    decreases |q|
  {
    var r := [v] + q;
    if q == [] {
      assert r[..|r| - 1] == [];
    } else {
      SumFront(v, q[..|q| - 1]);
      assert r[..|r| - 1] == [v] + q[..|q| - 1];
    }
  }

  lemma {:induction false} SumRemove(q: seq<int>, k: int)
    requires 0 <= k < |q|
    ensures Sum(q[..k] + q[k + 1..]) == Sum(q) - q[k]
    decreases |q|
  {
    var last := |q| - 1;
    if k < last {
      SumRemove(q[..last], k);
      assert (q[..k] + q[k + 1..])[..last - 1] == q[..last][..k] + q[..last][k + 1..];
    } else {
      assert q[..k] + q[k + 1..] == q[..last];
    }
  }

  /** A real number without its fraction. */
  function Whole(x: real): int { if x >= 0.0 then x.Floor else -(-x).Floor }

  /** A limit scaled by a ratio, if the ratio is below one. */
  function Shrunk(m: int, ratio: real): int {
    if ratio < 1.0 then Whole(m as real * ratio) else m
  }

  /** A limit, a signed number, as it compares with the unsigned minimum. */
  function AsUnsigned(m: int): int { if m < 0 then m + WordLimit else m }

  /** The share of each of `count` threads, kept between the minimum and the largest cache. */
  function Share(overall: int, count: int, minimum: int): int {
    var n := if count > 0 then count else 1;
    Least(if overall / n < minimum then minimum else overall / n, MaxThreadCache)
  }

  /** The share is what an equal division of all the space gives every thread, no more; unless that is below the
      minimum or above the largest cache. */
  lemma ShareFair(overall: int, count: int, minimum: int)
    requires overall >= 0 && minimum >= 0
    ensures var n := if count > 0 then count else 1; var s := Share(overall, count, minimum);
      && Least(minimum, MaxThreadCache) <= s <= MaxThreadCache
      && (s > minimum ==> n * s <= overall)
      && (s < MaxThreadCache ==> overall < n * (s + 1))
  {
    var n := if count > 0 then count else 1;
    var s, q := Share(overall, count, minimum), overall / n;
    assert n * q <= overall < n * (q + 1);
    if s > minimum { Order(n, s, q); }
    if s < MaxThreadCache { Order(n, q + 1, s + 1); }
  }

  lemma Order(n: int, a: int, b: int)
    requires n >= 0 && a <= b
    ensures n * a <= n * b
  {
  }

  /** A scaled limit is the whole part of the product, so that all limits together keep their proportions to within one
      byte each. */
  lemma ShrunkExact(m: int, ratio: real)
    requires 0.0 <= ratio
    ensures ratio >= 1.0 ==> Shrunk(m, ratio) == m
    ensures ratio < 1.0 && m >= 0 ==> Shrunk(m, ratio) as real <= m as real * ratio < Shrunk(m, ratio) as real + 1.0
    ensures ratio < 1.0 && m < 0 ==> Shrunk(m, ratio) as real - 1.0 < m as real * ratio <= Shrunk(m, ratio) as real
  {
    if ratio < 1.0 {
      var n := if m >= 0 then m else -m;
      Product(n as real, ratio);
      if m < 0 { assert m as real == -(n as real) && m as real * ratio == -(n as real * ratio); }
    }
  }

  function Ratio(space: int, before: int): real {
    space as real / (if before > 1 then before as real else 1.0)
  }

  lemma Product(a: real, b: real)
    requires a >= 0.0 && b >= 0.0
    ensures a * b >= 0.0
  {
  }

  /** Scaling takes a limit nearer to zero, but not across it. */
  lemma Scaled(m: int, ratio: real)
    requires 0.0 <= ratio
    ensures m >= 0 ==> 0 <= Shrunk(m, ratio) <= m
    ensures m < 0 ==> m <= Shrunk(m, ratio) <= 0
  {
    if ratio < 1.0 {
      var n := if m >= 0 then m else -m;
      var x := n as real * ratio;
      Product(n as real, ratio);
      Product(n as real, 1.0 - ratio);
      assert x + n as real * (1.0 - ratio) == n as real;
      assert x.Floor as real <= x;
      if m < 0 {
        assert m as real == -(n as real);
        assert m as real * ratio == -x;
      }
    }
  }

  lemma EmptySum(q: seq<int>)
    ensures Sum(q[..0]) == 0
  {
  }

  lemma SumStep(q: seq<int>, k: int)
    requires 0 <= k < |q|
    ensures Sum(q[..k + 1]) == Sum(q[..k]) + q[k]
  {
    assert q[..k + 1][..k] == q[..k];
  }

  /** The index `i` places after `k` in a list of `n`, going round. */
  ghost function Round(k: int, i: nat, n: int): (j: int)
    requires 0 <= k < n
    ensures 0 <= j < n
  {
    if i == 0 then k else
      var j := Round(k, i - 1, n);
      if j == n - 1 then 0 else j + 1
  }

  /** Going round once reaches every index. */
  lemma {:induction false} RoundReaches(k: int, n: int, j: int) returns (i: nat)
    requires 0 <= k < n && 0 <= j < n
    ensures i == (if j >= k then j - k else j - k + n) && Round(k, i, n) == j
    decreases if j >= k then j - k else j - k + n
  {
    if j == k {
      i := 0;
    } else {
      i := RoundReaches(k, n, if j == 0 then n - 1 else j - 1);
      i := i + 1;
    }
  }

  class ThreadCache {
    var next: ThreadCache?
    var prev: ThreadCache?
    var maxSize: int

    constructor ()
      ensures next == null && prev == null && maxSize == 0
    {
      next, prev, maxSize := null, null, 0;
    }
  }

  function At(list: seq<ThreadCache>, k: int): ThreadCache? {
    if 0 <= k < |list| then list[k] else null
  }

  /** The `k`-th cache of a list is linked to its neighbours, and its limit is recorded. */
  ghost predicate NodeOk(list: seq<ThreadCache>, sizes: seq<int>, k: int)
    requires 0 <= k < |list| == |sizes|
    reads list
  {
    list[k].next == At(list, k + 1) && list[k].prev == At(list, k - 1) && list[k].maxSize == sizes[k]
  }

  /** As `NodeOk`, in a list whose links leave out the `k`-th cache. */
  ghost predicate SkipsOk(list: seq<ThreadCache>, sizes: seq<int>, k: int, i: int)
    requires 0 <= i < |list| == |sizes|
    reads list
  {
    && list[i].next == At(list, if i == k - 1 then k + 1 else i + 1)
    && list[i].prev == At(list, if i == k + 1 then k - 1 else i - 1)
    && list[i].maxSize == sizes[i]
  }

  lemma Spliced(list: seq<ThreadCache>, sizes: seq<int>, k: int)
    requires 0 <= k < |list| == |sizes|
    requires forall i :: 0 <= i < |list| ==> SkipsOk(list, sizes, k, i)
    ensures var q, z := list[..k] + list[k + 1..], sizes[..k] + sizes[k + 1..];
      forall j :: 0 <= j < |q| ==> NodeOk(q, z, j)
  {
    var q, z := list[..k] + list[k + 1..], sizes[..k] + sizes[k + 1..];
    forall j | 0 <= j < |q| ensures NodeOk(q, z, j) {
      assert SkipsOk(list, sizes, k, if j < k then j else j + 1);
    }
  }

  class Budget {
    var heaps: ThreadCache?          // first cache of the list
    var count: int
    var steal: ThreadCache?          // next cache to take from
    var minimum: int
    var overall: int
    var unclaimed: int
    var perThread: int
    ghost var list: seq<ThreadCache>
    ghost var sizes: seq<int>        // the limits of the caches in the list
    ghost var low: bool              // the minimum has been too low at some time

    /** The links make up `list`, and `sizes` are its limits. */
    ghost predicate Linked()
      reads this`heaps, this`count, this`list, this`sizes, list
    {
      && |sizes| == |list| == count && heaps == At(list, 0)
      && (forall j, k :: 0 <= j < k < |list| ==> list[j] != list[k])
      && (forall k :: 0 <= k < |list| ==> NodeOk(list, sizes, k))
    }

    ghost predicate Settings()
      reads this`minimum, this`overall, this`steal, this`list, this`low
    {
      && minimum >= 0 && overall >= 0 && (!low ==> minimum >= StealAmount - 1)
      && (steal == null || steal in list)
    }

    /** No limit is negative unless the minimum has been too low. */
    ghost predicate Fair()
      reads this`sizes, this`low
    {
      !low ==> forall k :: 0 <= k < |sizes| ==> sizes[k] >= 0
    }

    ghost predicate Valid()
      reads this, list
    {
      Linked() && Settings() && Fair() && unclaimed + Sum(sizes) == overall
    }

    constructor ()
      ensures Valid() && list == [] && minimum == MinThreadCache && !low
      ensures overall == unclaimed == DefaultOverall && perThread == MaxThreadCache
    {
      heaps, count, steal, list, sizes, low := null, 0, null, [], [], false;
      minimum, overall, unclaimed, perThread := MinThreadCache, DefaultOverall, DefaultOverall, MaxThreadCache;
    }

    /** Cache `h` is the `k`-th of the list, or, for a negative `k`, not in it yet. */
    ghost predicate Place(h: ThreadCache, k: int)
      reads this`list
    {
      k < |list| && if k >= 0 then list[k] == h else h !in list
    }

    ghost predicate Balanced(h: ThreadCache, k: int)
      reads this`unclaimed, this`sizes, this`overall, h`maxSize
    {
      unclaimed + Sum(sizes) + (if k < 0 then h.maxSize else 0) == overall
    }

    method SetMaxSize(h: ThreadCache, ghost k: int, size: int)
      requires Linked() && Place(h, k) && Fair() && (!low ==> size >= 0)
      modifies h`maxSize, this`sizes
      ensures Linked() && Fair() && h.maxSize == size
      ensures k < 0 ==> sizes == old(sizes)
      ensures k >= 0 ==> sizes == old(sizes)[k := size] && Sum(sizes) == old(Sum(sizes)) - old(h.maxSize) + size
    {
      hide Sum;
      assert k >= 0 ==> NodeOk(list, sizes, k);
      h.maxSize := size;
      if k >= 0 {
        SumUpdate(sizes, k, size);
        sizes := sizes[k := size];
      }
      forall j | 0 <= j < |list| ensures NodeOk(list, sizes, j) {
        assert old(NodeOk(list, sizes, j));
      }
    }

    /** None of the ten caches looked at can be stolen from. */
    ghost predicate NoneFits(h: ThreadCache)
      requires Settings() && list != []
      reads this, list
    {
      forall j :: 0 <= j < 10 ==> !Suitable(h, Candidate(j))
    }

    /** The `i`-th cache looked at is the first that can be stolen from. */
    ghost predicate FirstFit(h: ThreadCache, i: nat)
      requires Settings() && list != []
      reads this, list
    {
      Suitable(h, Candidate(i)) && forall j :: 0 <= j < i ==> !Suitable(h, Candidate(j))
    }

    /** A cache asks for more: from the unclaimed space, else from another cache, the `i`-th it looks at.  With no
        unclaimed space and no other cache the source has nothing to look at. */
    method IncreaseCacheLimit(h: ThreadCache, ghost k: int) returns (ghost i: nat)
      requires Linked() && Settings() && Fair() && Place(h, k) && Balanced(h, k) && (k < 0 ==> h.maxSize == 0)
      requires list != [] || unclaimed > 0
      modifies this`unclaimed, this`steal, this`sizes, h`maxSize, list`maxSize
      ensures Linked() && Settings() && Fair() && Balanced(h, k)
      ensures h.maxSize == old(h.maxSize) || h.maxSize == old(h.maxSize) + StealAmount
      ensures old(unclaimed) > 0 ==> h.maxSize == old(h.maxSize) + StealAmount && unclaimed == old(unclaimed) - StealAmount
      ensures old(unclaimed) > 0 ==> steal == old(steal) && forall c :: c in list && c != h ==> c.maxSize == old(c.maxSize)
      ensures old(unclaimed) <= 0 ==> unclaimed == old(unclaimed)
      ensures old(unclaimed) <= 0 && h.maxSize != old(h.maxSize) ==>
                && i < 10 && old(FirstFit(h, i)) && Points(old(Candidate(i + 1)))
                && old(Candidate(i)).maxSize == old(Candidate(i).maxSize) - StealAmount
                && forall c :: c in list && c != h && c != old(Candidate(i)) ==> c.maxSize == old(c.maxSize)
      ensures old(unclaimed) <= 0 && h.maxSize == old(h.maxSize) ==>
                && old(NoneFits(h)) && Points(old(Candidate(10))) && sizes == old(sizes)
                && forall c :: c in list ==> c.maxSize == old(c.maxSize)
      ensures old(unclaimed) <= 0 && |list| <= 10 ==>
                (h.maxSize == old(h.maxSize) + StealAmount <==> exists c :: c in list && old(Suitable(h, c)))
    {
      hide Sum, Linked, Round, Turn, Candidate, Suitable, Points, FirstFit, NoneFits;
      i := 0;
      if unclaimed > 0 {
        if k >= 0 { LimitAt(k); }
        unclaimed := unclaimed - StealAmount;
        SetMaxSize(h, k, h.maxSize + StealAmount);
        return;
      }
      var got;
      got, i := Steal(h, k);
    }

    /** Takes from the first of the next ten caches that has more than the minimum, if there is one. */
    method Steal(h: ThreadCache, ghost k: int) returns (got: bool, ghost i: nat)
      requires Linked() && Settings() && Fair() && Place(h, k) && Balanced(h, k) && (k < 0 ==> h.maxSize == 0) && list != []
      modifies this`steal, this`sizes, h`maxSize, list`maxSize
      ensures Linked() && Settings() && Fair() && Balanced(h, k)
      ensures got ==> i < 10 && old(FirstFit(h, i)) && Points(old(Candidate(i + 1)))
      ensures got ==> h.maxSize == old(h.maxSize) + StealAmount && old(Candidate(i)).maxSize == old(Candidate(i).maxSize) - StealAmount
      ensures got ==> forall c :: c in list && c != h && c != old(Candidate(i)) ==> c.maxSize == old(c.maxSize)
      ensures !got ==> old(NoneFits(h)) && Points(old(Candidate(10)))
      ensures !got ==> h.maxSize == old(h.maxSize) && sizes == old(sizes) && forall c :: c in list ==> c.maxSize == old(c.maxSize)
      ensures |list| <= 10 ==> (got <==> exists c :: c in list && old(Suitable(h, c)))
    {
      hide Sum, Linked, Round, Turn, Suitable;
      AllReached();
      got, i := FindVictim(h);
      if got {
        NextTurn(old(Turn()), i);
        MoveLimit(h, k);
      }
    }

    /** The steal pointer is at cache `c`, or has run off the end of the list and `c` is first. */
    ghost predicate Points(c: ThreadCache)
      reads this`steal, this`list
    {
      steal == c || (steal == null && list != [] && list[0] == c)
    }

    lemma LimitAt(k: int)
      requires Linked() && 0 <= k < |list|
      ensures |sizes| == |list| && list[k].maxSize == sizes[k]
    {
      assert NodeOk(list, sizes, k);
    }

    /** The caches the search looks at, round robin from the steal pointer. */
    ghost function Candidate(i: nat): (c: ThreadCache)
      requires Settings() && list != []
      reads this`list, this`steal, this`minimum, this`overall, this`low
      ensures c in list
    {
      list[Round(Turn(), i, |list|)]
    }

    ghost function Turn(): (k: int)
      requires Settings() && list != []
      reads this`list, this`steal, this`minimum, this`overall, this`low
      ensures 0 <= k < |list| && (if steal == null then k == 0 else list[k] == steal)
    {
      if steal == null then 0 else var k :| 0 <= k < |list| && list[k] == steal; k
    }

    lemma AllReached()
      requires Settings() && list != []
      ensures forall c :: c in list ==> exists i: nat :: i < |list| && Candidate(i) == c
    {
      hide Round;
      forall c | c in list ensures exists i: nat :: i < |list| && Candidate(i) == c {
        var j :| 0 <= j < |list| && list[j] == c;
        var i := RoundReaches(Turn(), |list|, j);
        assert Candidate(i) == c;
      }
    }

    /** A cache other than `h` with more than the minimum. */
    predicate Suitable(h: ThreadCache, c: ThreadCache)
      reads this`minimum, c`maxSize
    {
      c != h && Rich(c)
    }

    predicate Rich(c: ThreadCache)
      reads this`minimum, c`maxSize
    {
      AsUnsigned(c.maxSize) > minimum
    }

    /** Up to ten tries to find a suitable cache. */
    method FindVictim(h: ThreadCache) returns (found: bool, ghost i: nat)
      requires Linked() && Settings() && list != []
      modifies this`steal
      ensures Linked() && Settings()
      ensures found ==> i < 10 && steal == old(Candidate(i)) && old(FirstFit(h, i))
      ensures !found ==> (forall j :: 0 <= j < 10 ==> !Suitable(h, old(Candidate(j)))) && Points(old(Candidate(10)))
    {
      hide Round, Linked, Turn;
      ghost var p := Turn();
      ghost var n := |list|;
      FirstTurn();
      var tries := 0;
      i := 0;
      while tries < 10
        invariant i == tries <= 10 && Linked() && Settings()
        invariant steal == list[Round(p, i, n)] || (steal == null && Round(p, i, n) == 0)
        invariant forall j :: 0 <= j < i ==> !Suitable(h, old(Candidate(j)))
      {
        if steal == null {
          steal := heaps;
        }
        assert steal == old(Candidate(i));
        if Suitable(h, steal) {
          return true, i;
        }
        NextTurn(p, i);
        steal := steal.next;
        tries, i := tries + 1, i + 1;
      }
      return false, i;
    }

    lemma FirstTurn()
      requires Linked() && Settings() && list != []
      ensures heaps == list[0] && Round(Turn(), 0, |list|) == Turn()
    {
    }

    lemma NextTurn(p: int, i: nat)
      requires Linked() && 0 <= p < |list|
      ensures var j := Round(p, i + 1, |list|);
        (j == 0 && list[Round(p, i, |list|)].next == null) || list[Round(p, i, |list|)].next == list[j]
    {
      assert NodeOk(list, sizes, Round(p, i, |list|));
    }

    method Advance()
      requires Linked() && Settings() && steal != null
      modifies this`steal
      ensures Linked() && Settings() && steal == old(steal.next)
    {
      ghost var j :| 0 <= j < |list| && list[j] == steal;
      assert NodeOk(list, sizes, j);
      steal := steal.next;
    }

    /** Moves part of the limit of the cache to steal from to `h`.  That cache may be left with
        less than nothing, but not if the minimum is at least one less than the amount. */
    method MoveLimit(h: ThreadCache, ghost k: int)
      requires Linked() && Settings() && Fair() && Place(h, k) && Balanced(h, k) && (k < 0 ==> h.maxSize >= 0)
      requires steal != null && Suitable(h, steal)
      modifies this`steal, this`sizes, h`maxSize, steal`maxSize
      ensures Linked() && Settings() && Fair() && Balanced(h, k) && h.maxSize == old(h.maxSize) + StealAmount
      ensures old(steal).maxSize == old(steal.maxSize) - StealAmount && steal == old(steal.next)
      ensures minimum >= StealAmount - 1 && old(steal.maxSize) >= 0 ==> old(steal).maxSize >= 0
    {
      hide Sum, Linked;
      ghost var j :| 0 <= j < |list| && list[j] == steal;
      LimitAt(j);
      if k >= 0 { LimitAt(k); }
      SetMaxSize(steal, j, steal.maxSize - StealAmount);
      SetMaxSize(h, k, h.maxSize + StealAmount);
      Advance();
    }

    /** A new cache, with a limit of its own even if nothing is left to claim; it may be taken from the `i`-th cache
        looked at.  Null stands for the source's failure to look at a list without caches: there must be unclaimed
        space or another cache, and with the first cache all space is unclaimed. */
    method NewHeap() returns (h: ThreadCache?, ghost i: nat)
      requires Valid()
      modifies this, list
      ensures Valid() && minimum == old(minimum) && overall == old(overall) && perThread == old(perThread) && low == old(low)
      ensures h == null <==> old(list) == [] && overall == 0
      ensures h == null ==> list == old(list) && unclaimed == old(unclaimed)
      ensures h != null ==> fresh(h) && list == [h] + old(list)
      ensures old(unclaimed) > 0 ==> h != null && h.maxSize == StealAmount && unclaimed == old(unclaimed) - StealAmount
      ensures old(unclaimed) > 0 ==> steal == (if old(list) == [] then h else old(steal))
      ensures old(unclaimed) > 0 ==> forall c :: c in old(list) ==> c.maxSize == old(c.maxSize)
      ensures old(unclaimed) <= 0 && h != null ==> old(list) != [] && if old(NoneRich())
                then h.maxSize == minimum && unclaimed == old(unclaimed) - minimum && SameLimits(old(list))
                else h.maxSize == StealAmount && unclaimed == old(unclaimed) && i < 10 && old(FirstRich(i)) && StolenFrom(old(list), old(Candidate(i)))
    {
      hide Sum, Linked, Candidate, Round, Rich, FirstRich, NoneRich;
      FirstIs();
      i := 0;
      if heaps == null && unclaimed <= 0 {
        return null, 0;
      }
      h := new ThreadCache();
      assert list != [] ==> forall j: nat :: Candidate(j) == old(Candidate(j)) && FirstRich(j) == old(FirstRich(j));
      i := Fund(h);
      Link(h);
    }

    twostate predicate SameLimits(q: seq<ThreadCache>)
      reads q
    {
      forall c :: c in q ==> c.maxSize == old(c.maxSize)
    }

    /** Cache `v` has lost the amount to steal, and no other cache of `q` has lost anything. */
    twostate predicate StolenFrom(q: seq<ThreadCache>, v: ThreadCache)
      reads q, v
    {
      v.maxSize == old(v.maxSize) - StealAmount && forall c :: c in q && c != v ==> c.maxSize == old(c.maxSize)
    }

    /** The first limit of a new cache. */
    method Fund(h: ThreadCache) returns (ghost i: nat)
      requires Linked() && Settings() && Fair() && Place(h, -1) && Balanced(h, -1) && h.maxSize == 0
      requires list != [] || unclaimed > 0
      modifies this`unclaimed, this`steal, this`sizes, h`maxSize, list`maxSize
      ensures Linked() && Settings() && Fair() && Balanced(h, -1) && h.maxSize >= 0
      ensures old(unclaimed) > 0 ==> h.maxSize == StealAmount && unclaimed == old(unclaimed) - StealAmount && steal == old(steal)
      ensures old(unclaimed) > 0 ==> SameLimits(list)
      ensures old(unclaimed) <= 0 ==> if old(NoneRich())
                then h.maxSize == minimum && unclaimed == old(unclaimed) - minimum && SameLimits(list)
                else h.maxSize == StealAmount && unclaimed == old(unclaimed) && i < 10 && old(FirstRich(i)) && StolenFrom(list, old(Candidate(i)))
    {
      hide Sum, Linked, Round, Turn, Candidate, Rich, Points, NoneRich, FirstRich, NoneFits, FirstFit;
      if list != [] { Newcomer(h); }
      i := IncreaseCacheLimit(h, -1);
      if h.maxSize == 0 {
        h.maxSize := minimum;
        unclaimed := unclaimed - minimum;
      }
    }

    /** `NoneFits` and `FirstFit` for a cache that is not in the list yet. */
    ghost predicate NoneRich()
      requires Settings() && list != []
      reads this, list
    {
      forall j :: 0 <= j < 10 ==> !Rich(Candidate(j))
    }

    ghost predicate FirstRich(i: nat)
      requires Settings() && list != []
      reads this, list
    {
      Rich(Candidate(i)) && forall j :: 0 <= j < i ==> !Rich(Candidate(j))
    }

    lemma Newcomer(h: ThreadCache)
      requires Settings() && list != [] && h !in list
      ensures NoneFits(h) <==> NoneRich()
      ensures forall i: nat :: (FirstFit(h, i) <==> FirstRich(i)) && (FirstRich(i) && i < 10 ==> !NoneRich())
    {
      hide Round, Rich;
    }

    lemma FirstIs()
      requires Valid()
      ensures heaps == null <==> list == []
      ensures list == [] ==> unclaimed == overall
    {
    }

    method Link(h: ThreadCache)
      requires Linked() && Settings() && Fair() && Place(h, -1) && Balanced(h, -1) && h.maxSize >= 0
      modifies this`heaps, this`count, this`steal, this`list, this`sizes, h, list`prev
      ensures Valid() && list == [h] + old(list) && h.maxSize == old(h.maxSize)
      ensures steal == (if old(list) == [] then h else old(steal))
    {
      hide Sum;
      assert heaps != null ==> NodeOk(list, sizes, 0);
      h.next := heaps;
      h.prev := null;
      if heaps != null {
        heaps.prev := h;
      } else {
        assert steal == null;
        steal := h;
      }
      heaps := h;
      count := count + 1;
      SumFront(h.maxSize, sizes);
      list, sizes := [h] + list, [h.maxSize] + sizes;
      forall k | 0 <= k < |list| ensures NodeOk(list, sizes, k) {
        assert k > 0 ==> old(NodeOk(list, sizes, k - 1));
      }
    }

    /** A cache goes; what it had claimed is unclaimed again. */
    method DeleteCache(h: ThreadCache, ghost k: int)
      requires Valid() && 0 <= k < |list| && list[k] == h
      modifies this, list
      ensures Valid() && list == old(list)[..k] + old(list)[k + 1..]
      ensures unclaimed == old(unclaimed) + old(h.maxSize) && h.maxSize == old(h.maxSize)
      ensures sizes == old(sizes)[..k] + old(sizes)[k + 1..]
      ensures minimum == old(minimum) && overall == old(overall) && perThread == old(perThread) && low == old(low)
      ensures if old(steal) != null && old(steal) != h then steal == old(steal) else
                steal == (if old(steal) == h && k < |list| then list[k] else At(list, 0))
    {
      hide Sum;
      LimitAt(k);
      Unlink(h, k);
      if steal == h {
        steal := h.next;
      }
      if steal == null {
        steal := heaps;
      }
      unclaimed := unclaimed + h.maxSize;
    }

    method Unlink(h: ThreadCache, ghost k: int)
      requires Linked() && Fair() && 0 <= k < |list| && list[k] == h
      modifies this`heaps, this`count, this`list, this`sizes, list
      ensures Linked() && Fair() && list == old(list)[..k] + old(list)[k + 1..] && sizes == old(sizes)[..k] + old(sizes)[k + 1..]
      ensures h.next == old(h.next) && h.next == At(list, k) && h.maxSize == old(h.maxSize)
      ensures Sum(sizes) == old(Sum(sizes)) - h.maxSize
    {
      hide Sum;
      assert NodeOk(list, sizes, k);
      Detach(h, k);
      assert SkipsOk(list, sizes, k, k);
      if heaps == h {
        heaps := h.next;
      }
      count := count - 1;
      SumRemove(sizes, k);
      Spliced(list, sizes, k);
      list, sizes := list[..k] + list[k + 1..], sizes[..k] + sizes[k + 1..];
    }

    /** Makes the neighbours of the `k`-th cache point past it. */
    method Detach(h: ThreadCache, ghost k: int)
      requires Linked() && 0 <= k < |list| && list[k] == h
      modifies list`next, list`prev
      ensures forall i :: 0 <= i < |list| ==> SkipsOk(list, sizes, k, i)
    {
      assert NodeOk(list, sizes, k);
      assert k > 0 ==> NodeOk(list, sizes, k - 1);
      assert k + 1 < |list| ==> NodeOk(list, sizes, k + 1);
      if h.next != null {
        h.next.prev := h.prev;
      }
      if h.prev != null {
        h.prev.next := h.next;
      }
      forall i | 0 <= i < |list| ensures SkipsOk(list, sizes, k, i) {
        assert old(NodeOk(list, sizes, i));
      }
    }

    /** Divides the space anew: limits shrink in proportion when the share per thread does. */
    method RecomputePerThreadCacheSize()
      requires Linked() && Settings() && Fair()
      modifies this`unclaimed, this`perThread, this`sizes, list`maxSize
      ensures Valid() && perThread == Share(overall, count, minimum)
      ensures forall k :: 0 <= k < |sizes| ==> sizes[k] == Shrunk(old(sizes)[k], Ratio(perThread, old(perThread)))
      ensures forall k :: 0 <= k < |sizes| && old(sizes)[k] >= 0 ==> 0 <= sizes[k] <= old(sizes)[k]
      ensures forall k :: 0 <= k < |sizes| && old(sizes)[k] < 0 ==> old(sizes)[k] <= sizes[k] <= 0
    {
      var n := if count > 0 then count else 1;
      var space := overall / n;
      if space < minimum {
        space := minimum;
      }
      if space > MaxThreadCache {
        space := MaxThreadCache;
      }
      var claimed := ShrinkAll(Ratio(space, perThread));
      unclaimed := overall - claimed;
      perThread := space;
    }

    /** The walk over the list: scales the limits by a ratio below one and adds them up. */
    method ShrinkAll(ratio: real) returns (claimed: int)
      requires Linked() && Fair() && 0.0 <= ratio
      modifies this`sizes, list`maxSize
      ensures Linked() && Fair() && claimed == Sum(sizes)
      ensures forall k :: 0 <= k < |sizes| ==> sizes[k] == Shrunk(old(sizes)[k], ratio)
      ensures forall k :: 0 <= k < |sizes| && old(sizes)[k] >= 0 ==> 0 <= sizes[k] <= old(sizes)[k]
      ensures forall k :: 0 <= k < |sizes| && old(sizes)[k] < 0 ==> old(sizes)[k] <= sizes[k] <= 0
    {
      hide Sum, Shrunk;
      EmptySum(sizes);
      claimed := 0;
      var h := heaps;
      ghost var k := 0;
      while h != null
        invariant Linked() && Fair() && 0 <= k <= |list| && h == At(list, k) && claimed == Sum(sizes[..k])
        invariant forall j :: 0 <= j < k ==> sizes[j] == Shrunk(old(sizes)[j], ratio)
        invariant forall j :: 0 <= j < k && old(sizes)[j] >= 0 ==> 0 <= sizes[j] <= old(sizes)[j]
        invariant forall j :: 0 <= j < k && old(sizes)[j] < 0 ==> old(sizes)[j] <= sizes[j] <= 0
        invariant forall j :: k <= j < |list| ==> sizes[j] == old(sizes)[j]
        decreases |list| - k
      {
        ghost var before := sizes;
        LimitAt(k);
        Scaled(h.maxSize, ratio);
        SetMaxSize(h, k, Shrunk(h.maxSize, ratio));
        assert sizes[..k] == before[..k];
        SumStep(sizes, k);
        claimed := claimed + h.maxSize;
        assert NodeOk(list, sizes, k);
        h := h.next;
        k := k + 1;
      }
      assert sizes[..k] == sizes;
    }

    method SetOverall(size: int)
      requires Valid() && size >= 0
      modifies this`overall, this`unclaimed, this`perThread, this`sizes, list`maxSize
      ensures Valid() && overall == (if size < minimum then Least(minimum, OverallLimit) else Least(size, OverallLimit))
      ensures perThread == Share(overall, count, minimum)
      ensures forall k :: 0 <= k < |sizes| ==> sizes[k] == Shrunk(old(sizes)[k], Ratio(perThread, old(perThread)))
    {
      var clipped := if size < minimum then minimum else size;
      if clipped > OverallLimit {
        clipped := OverallLimit;
      }
      overall := clipped;
      RecomputePerThreadCacheSize();
    }

    /** The lower bound a thread keeps. */
    method SetMinimum(size: int)
      requires Valid() && size >= 0
      modifies this`minimum, this`low
      ensures Valid() && minimum == size && low == (old(low) || size < StealAmount - 1)
    {
      minimum := size;
      low := low || size < StealAmount - 1;
    }
  }

  /** With a minimum below that bound a limit does go negative: one scaled down to just above
      the minimum is stolen from.  Anything from nothing up to the bound will do. */
  method LimitGoesNegative(minimum: int) returns (b: Budget, h: ThreadCache)
    requires 0 <= minimum < StealAmount - 1
    ensures b.Valid() && b.minimum == minimum && h in b.list && h.maxSize == minimum + 1 - StealAmount < 0
  {
    hide Sum, Round;
    b, h := ScaledDown(minimum);
    var last := UseUp(b, h);
    assert b.Candidate(0) == h by { b.FirstTurn(); }
    ghost var i := b.IncreaseCacheLimit(last, 0);
  }

  /** One cache, scaled down to one more than the minimum. */
  method ScaledDown(minimum: int) returns (b: Budget, h: ThreadCache)
    requires 0 <= minimum < StealAmount - 1
    ensures fresh(b) && fresh(h) && b.Valid() && b.minimum == minimum && b.unclaimed > 0
    ensures b.list == [h] && b.steal == h && h.maxSize == minimum + 1
  {
    hide Sum, Shrunk, Ratio;
    b := new Budget();
    b.SetMinimum(minimum);
    ghost var i;
    h, i := b.NewHeap();
    b.LimitAt(0);
    ScaledTo(minimum + 1);
    b.SetOverall(64 * (minimum + 1));
    b.LimitAt(0);
    OneLimit(b.sizes);
  }

  lemma OneLimit(q: seq<int>)
    requires |q| == 1
    ensures Sum(q) == q[0]
  {
    assert Sum(q[..0]) == 0;
  }

  /** New caches until no space is unclaimed; `last` is the newest. */
  method UseUp(b: Budget, h: ThreadCache) returns (last: ThreadCache)
    requires b.Valid() && b.list == [h] && b.steal == h && b.unclaimed > 0
    modifies b, h
    ensures b.Valid() && b.unclaimed <= 0 && b.minimum == old(b.minimum) && h.maxSize == old(h.maxSize)
    ensures |b.list| >= 2 && b.list[0] == last != h && b.list[|b.list| - 1] == h == b.steal
    ensures forall i :: 0 <= i < |b.list| ==> b.list[i] == h || fresh(b.list[i])
  {
    hide Sum, b.Linked;
    last := h;
    while b.unclaimed > 0
      invariant b.Valid() && b.minimum == old(b.minimum) && h.maxSize == old(h.maxSize)
      invariant |b.list| >= 1 && b.list[0] == last && b.list[|b.list| - 1] == h == b.steal
      invariant last == h <==> |b.list| == 1
      invariant |b.list| == 1 ==> b.unclaimed > 0
      invariant forall i :: 0 <= i < |b.list| ==> b.list[i] == h || fresh(b.list[i])
      decreases b.unclaimed
    {
      ghost var i;
      last, i := b.NewHeap();
    }
  }

  /** The first cache is one sixty-fourth of the largest cache. */
  lemma ScaledTo(m: int)
    requires 1 <= m < StealAmount
    ensures Share(64 * m, 1, m - 1) == 64 * m && Shrunk(StealAmount, Ratio(64 * m, MaxThreadCache)) == m
  {
  }

  /** Without a minimum and without space, the first cache finds no list to take from. */
  method NothingToTakeFrom() returns (b: Budget, h: ThreadCache?)
    ensures b.Valid() && b.list == [] && h == null
  {
    b := new Budget();
    b.SetMinimum(0);
    b.SetOverall(0);
    ghost var i;
    h, i := b.NewHeap();
  }

  function Least(a: int, b: int): int { if a < b then a else b }
}
