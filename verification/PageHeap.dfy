/** The page-level allocator.  All methods run with the page-heap lock held, so
    each public method is one atomic step; counts are kept in pages. */
module PageHeaps {
  import opened Arithmetic
  import opened Spans
  import opened FreeLists

  const MaxValidPages: int := PageLimit - 1
  const MinSystemAlloc: int := MaxPages
  const DefaultReleaseDelay: int := 0x4_0000
  const MaxReleaseDelay: int := 0x10_0000
  const ForcedCoalesceInterval: int := 0x4000   // 128 MiB in pages
  const WordLimit: int := 0x1_0000_0000_0000_0000

  /** What the free lists and counters leave out in the middle of an operation:
      the spans off all lists, their pages, and pages released but not yet relabelled. */
  datatype Slack = Slack(hole: set<SpanId>, normal: int, returned: int, debt: int)

  const Tight: Slack := Slack({}, 0, 0, 0)

  ghost function Hold(sl: Slack, i: SpanId, s: Span): Slack {
    Slack(sl.hole + {i}, sl.normal + Weight(s, Normal), sl.returned + Weight(s, Returned), sl.debt)
  }

  ghost function Total(t: Table): int {
    Pages(t, InUse) + Pages(t, Normal) + Pages(t, Returned)
  }

  // ---------------------------------------------------------------- lemmas about one merge

  lemma JoinShape(t: Table, pm: map<PageId, SpanId>, i: SpanId, k: SpanId, qm: map<PageId, SpanId>, left: bool)
    requires Tiled(t) && Tagged(t, pm) && i in t && k in t && i != k && t[i].Free()
    requires if left then t[k].End() == t[i].start else t[i].End() == t[k].start
    requires var s := Joined(t, i, k); qm == pm[(if left then s.start else s.End() - 1) := i]
    ensures var u := (t - {k})[i := Joined(t, i, k)];
      Tiled(u) && Tagged(u, qm)
  {
    hide Tiled, Tagged;
    NoClass(t, i);
    NoClass(t, k);
    JoinTiled(t, i, k);
    JoinTagged(t, pm, i, k);
    var s := Joined(t, i, k);
    OwnTags(t, pm, i);
    OwnTags(t, pm, k);
    assert qm == pm[s.start := i][s.End() - 1 := i];
  }

  lemma NoClass(t: Table, i: SpanId)
    requires Tiled(t) && i in t
    ensures t[i].length >= 1 && (t[i].Free() ==> t[i].sizeclass == 0)
  {
  }

  lemma OwnTags(t: Table, pm: map<PageId, SpanId>, i: SpanId)
    requires Tiled(t) && Tagged(t, pm) && i in t
    ensures MapsTo(pm, t[i].start, i) && MapsTo(pm, t[i].End() - 1, i) && t[i].length >= 1
  {
    assert TagsOf(t[i], i, pm);
  }

  lemma JoinBooks(t: Table, i: SpanId, k: SpanId, l: Location, b: Bins)
    requires i in t && k in t && i != k && t[i].Free() && t[k].Free()
    ensures var u := (t - {k})[i := Joined(t, i, k)];
      && (Filed(t, {i} + {k}, l, b) ==> Filed(u, {i}, l, b))
      && (Coalesced(t, {i} + {k}, l) ==> Coalesced(u, {i}, l))
      && Pages(u, l) == Pages(t, l) - Weight(t[i], l) - Weight(t[k], l) + Weight(u[i], l)
  {
    var u := (t - {k})[i := Joined(t, i, k)];
    PagesSplit(t, l, k);
    PagesUpdate(t - {k}, l, i, u[i]);
    if Filed(t, {i} + {k}, l, b) { Refile(t, {i} + {k}, u, {i}, l, b); }
  }

  lemma JoinSide(t: Table, i: SpanId, k: SpanId, l: Location)
    requires Tiled(t) && i in t && k in t && Touch(t, i, k) && t[i].Free() && t[i].location == l
    ensures var u := (t - {k})[i := Joined(t, i, k)];
      && (t[k].Free() ==> Swallowed(t, u, i))
      && (t[k].location == l && Coalesced(t, {i}, l) && t[k].End() == t[i].start ==> NoneEndsAt(u, {i}, l, u[i].start))
      && (t[k].location == l && Coalesced(t, {i}, l) && t[i].End() == t[k].start ==> NoneStartsAt(u, {i}, l, u[i].End()))
      && (t[k].location == Normal && t[k].End() == t[i].start ==> !NoneEndsAt(t, {i}, Normal, t[i].start))
      && (t[k].location == Normal && t[i].End() == t[k].start ==> !NoneStartsAt(t, {i}, Normal, t[i].End()))
  {
  }

  /** Relabelling a span that is off all lists. */
  lemma RelabelBooks(t: Table, i: SpanId, s: Span, l: Location, b: Bins)
    requires i in t
    ensures Filed(t, {i}, l, b) ==> Filed(t[i := s], {i}, l, b)
    ensures Coalesced(t, {i}, l) ==> Coalesced(t[i := s], {i}, l)
    ensures Pages(t[i := s], l) == Pages(t, l) - Weight(t[i], l) + Weight(s, l)
  {
    PagesUpdate(t, l, i, s);
    if Filed(t, {i}, l, b) { Refile(t, {i}, t[i := s], {i}, l, b); }
  }

  lemma RelabelSwallowed(t: Table, i: SpanId, l: Location)
    requires i in t && l != InUse
    ensures Swallowed(t, t[i := t[i].(location := l, sizeclass := 0)], i)
  {
  }

  /** Span `id` is newly handed out, with `n` pages, and nothing else changed hands. */
  ghost predicate Allocated(t: Table, u: Table, id: SpanId, n: int) {
    && id in u && id !in Live(t) && u[id].location == InUse && u[id].length == n && u[id].sizeclass == 0
    && Live(u) == Live(t)[id := u[id]]
  }

  /** The first `n` pages of span `id` are cut off and in use; what is left, if anything, is a free span of
      the same location; no other span has changed. */
  ghost predicate CutOff(t: Table, u: Table, id: SpanId, n: int) {
    && id in t
    && if n == t[id].length then u == t[id := t[id].(location := InUse)]
       else n < t[id].length && exists j :: j !in t && u == CutAt(t, id, n, j, InUse, t[id].location)
  }

  /** A shortest free span of at least `n` pages, among those longer than `over`
      pages; at equal length a normal one comes before a returned one. */
  ghost predicate BestFit(t: Table, over: int, n: int, i: SpanId) {
    && Candidate(t, over, n, i)
    && (forall k :: Candidate(t, over, n, k) ==> NoWorse(t[i], t[k]))
  }

  ghost predicate Candidate(t: Table, over: int, n: int, i: SpanId) {
    i in t && t[i].Free() && t[i].length > over && t[i].length >= n
  }

  predicate NoWorse(a: Span, b: Span) {
    a.length < b.length || (a.length == b.length && (b.location == Normal ==> a.location == Normal))
  }

  ghost predicate LargeFits(t: Table, n: int) {
    exists i :: Candidate(t, MaxPages, n, i)
  }

  lemma LargeFitsAbsorbed(t: Table, u: Table, n: int)
    requires Absorbed(t, u) && LargeFits(t, n)
    ensures LargeFits(u, n)
  {
    var i :| Candidate(t, MaxPages, n, i);
    assert Engulfed(t[i], u);
    var k :| k in u && u[k].Free() && t[i].Within(u[k]);
    assert Candidate(u, MaxPages, n, k);
  }

  /** The comparison of the two set searches in AllocLarge picks the best large fit. */
  lemma PickLarge(t: Table, normal: Bins, returned: Bins, n: int, a: Option<SpanId>, b: Option<SpanId>)
    requires Filed(t, {}, Normal, normal) && Filed(t, {}, Returned, returned)
    requires normal.large <= t.Keys && returned.large <= t.Keys
    requires a.None? ==> forall k :: k in normal.large ==> t[k].length < n
    requires a.Some? ==> a.value in normal.large && t[a.value].length >= n && NoBetter(t, normal.large, n, a.value)
    requires b.None? ==> forall k :: k in returned.large ==> t[k].length < n
    requires b.Some? ==> b.value in returned.large && t[b.value].length >= n && NoBetter(t, returned.large, n, b.value)
    ensures a.None? && b.None? ==> !LargeFits(t, n)
    ensures a.Some? && (b.None? || t[b.value].length >= t[a.value].length) ==> BestFit(t, MaxPages, n, a.value)
    ensures b.Some? && (a.None? || t[b.value].length < t[a.value].length) ==> BestFit(t, MaxPages, n, b.value)
  {
    forall k | Candidate(t, MaxPages, n, k) ensures k in normal.large || k in returned.large {
      assert t[k].location == Normal ==> Belongs(t, {}, Normal, k);
      assert t[k].location == Returned ==> Belongs(t, {}, Returned, k);
    }
    assert forall k :: k in normal.large ==> Belongs(t, {}, Normal, k);
    assert forall k :: k in returned.large ==> Belongs(t, {}, Returned, k);
  }

  lemma BestFitFits(t: Table, n: int, i: SpanId)
    requires BestFit(t, MaxPages, n, i)
    ensures i in t && LargeFits(t, n)
  {
    assert Candidate(t, MaxPages, n, i);
  }

  lemma SmallLists(t: Table, l: Location, b: Bins, s: int)
    requires Filed(t, {}, l, b) && 1 <= s <= MaxPages && l != InUse
    ensures |b.small| == MaxPages
    ensures b.small[s - 1] == [] ==> forall k :: k in t && t[k].location == l ==> t[k].length != s
    ensures b.small[s - 1] != [] ==> var i := b.small[s - 1][0]; i in t && t[i].location == l && t[i].length == s
  {
    if b.small[s - 1] == [] {
      forall k | k in t && t[k].location == l ensures t[k].length != s {
        assert Belongs(t, {}, l, k);
        assert k !in b.small[s - 1];
      }
    } else {
      assert Belongs(t, {}, l, b.small[s - 1][0]);
    }
  }

  /** No free span has a length from `n` up to (but excluding) `s`. */
  ghost predicate NoneShorter(t: Table, n: int, s: int) {
    forall k :: k in t && t[k].Free() && t[k].length >= n ==> t[k].length >= s
  }

  lemma ShortestIsBest(t: Table, n: int, s: int, i: SpanId)
    requires Tiled(t) && NoneShorter(t, n, s) && i in t && t[i].Free() && t[i].length == s >= n
    requires t[i].location == Normal || forall k :: k in t && t[k].location == Normal ==> t[k].length != s
    ensures BestFit(t, 0, n, i) && Fits(t, n)
  {
    assert Candidate(t, 0, n, i);
  }

  lemma NothingShorter(t: Table, n: int)
    ensures NoneShorter(t, n, n)
  {
  }

  ghost predicate NoneOfLength(t: Table, s: int) {
    forall k :: k in t && t[k].Free() ==> t[k].length != s
  }

  /** A free span of `s` pages, a normal one if there is any. */
  ghost predicate FirstOfLength(t: Table, s: int, i: SpanId) {
    && i in t && t[i].Free() && t[i].length == s
    && (t[i].location == Normal || forall k :: k in t && t[k].location == Normal ==> t[k].length != s)
  }

  lemma FirstIsBest(t: Table, n: int, s: int, i: SpanId)
    requires Tiled(t) && NoneShorter(t, n, s) && FirstOfLength(t, s, i) && s >= n
    ensures i in t && BestFit(t, 0, n, i) && Fits(t, n)
  {
    hide Tiled, NoneShorter, BestFit, Fits;
    ShortestIsBest(t, n, s, i);
  }

  lemma FitsLonger(t: Table, s: int)
    requires Fits(t, s) && NoneOfLength(t, s)
    ensures Fits(t, s + 1)
  {
  }

  /** A returned span that left its list has become part of a longer one. */
  lemma MovedUp(t: Table, u: Table, i: SpanId, s: int)
    requires StayReturned(t, u) && i in t && t[i].location == Returned && t[i].length == s
    requires forall k :: k in u && u[k].location == Returned ==> u[k].length != s
    ensures Fits(u, s + 1)
  {
    assert InReturned(t[i], u);
    var k :| k in u && u[k].location == Returned && t[i].Within(u[k]);
    assert u[k].length >= s + 1;
  }

  lemma LongIsLarge(t: Table, s: int, n: int)
    requires Fits(t, s) && s > MaxPages && s >= n
    ensures LargeFits(t, n)
  {
    var i :| i in t && t[i].Free() && t[i].length >= s;
    assert Candidate(t, MaxPages, n, i);
  }

  lemma AllocatedFrom(t: Table, u: Table, v: Table, id: SpanId, n: int)
    requires Live(u) == Live(t) && Allocated(u, v, id, n)
    ensures Allocated(t, v, id, n)
  {
  }

  lemma LengthenSearch(t: Table, n: int, s: int)
    requires NoneShorter(t, n, s) && NoneOfLength(t, s)
    ensures NoneShorter(t, n, s + 1)
  {
  }

  lemma LargeIsBest(t: Table, n: int)
    requires Tiled(t) && (n > MaxPages || NoneShorter(t, n, MaxPages + 1))
    ensures LargeFits(t, n) <==> Fits(t, n)
    ensures forall i :: BestFit(t, MaxPages, n, i) ==> BestFit(t, 0, n, i)
  {
    if Fits(t, n) {
      var i :| i in t && t[i].Free() && t[i].length >= n;
      assert Candidate(t, MaxPages, n, i);
    }
    if LargeFits(t, n) {
      var i :| Candidate(t, MaxPages, n, i);
    }
    forall i | BestFit(t, MaxPages, n, i) ensures BestFit(t, 0, n, i) {
      forall k | Candidate(t, 0, n, k) ensures NoWorse(t[i], t[k]) {
        assert Candidate(t, MaxPages, n, k);
      }
    }
  }

  lemma LargeKnown(t: Table, l: Location, b: Bins)
    requires Filed(t, {}, l, b)
    ensures b.large <= t.Keys
  {
    assert forall k :: k in b.large ==> Belongs(t, {}, l, k);
  }

  /** A normal span's pages are counted in the total of normal pages. */
  lemma PagesAtLeast(t: Table, l: Location, i: SpanId)
    requires Tiled(t) && i in t && t[i].location == l
    ensures Pages(t, l) >= t[i].length
  {
    PagesSplit(t, l, i);
    PagesZero(t - {i}, l);
  }

  // ---------------------------------------------------------------- lemmas about one cut

  lemma CutPages(t: Table, i: SpanId, n: int, j: SpanId, first: Location, second: Location, l: Location)
    requires i in t && j !in t && n <= t[i].length
    ensures var u := CutAt(t, i, n, j, first, second);
      Pages(u, l) == Pages(t, l) - Weight(t[i], l) + Weight(u[i], l) + Weight(u[j], l)
  {
    var s := t[i].(length := n, location := first);
    PagesUpdate(t, l, i, s);
    PagesUpdate(t[i := s], l, j, Span(t[i].start + n, t[i].length - n, second, 0));
  }

  /** Carving from a span that is off all lists; the rest `j` is not on one yet. */
  lemma CarveBooks(t: Table, i: SpanId, n: int, j: SpanId, l: Location, b: Bins)
    requires i in t && j !in t && t[i].Free() && n <= t[i].length && l != InUse
    ensures var u := CutAt(t, i, n, j, InUse, t[i].location);
      && (Filed(t, {i}, l, b) ==> Filed(u, {j}, l, b))
      && (Coalesced(t, {i}, l) ==> Coalesced(u, {j}, l))
  {
    var u := CutAt(t, i, n, j, InUse, t[i].location);
    if Filed(t, {i}, l, b) { Refile(t, {i}, u, {j}, l, b); }
  }

  lemma CarveAllocates(t: Table, i: SpanId, n: int, j: SpanId)
    requires i in t && j !in t && t[i].Free() && n <= t[i].length && t[i].sizeclass == 0
    ensures Allocated(t, CutAt(t, i, n, j, InUse, t[i].location), i, n)
    ensures n == t[i].length ==> Allocated(t, t[i := t[i].(location := InUse)], i, n)
  {
    var u := CutAt(t, i, n, j, InUse, t[i].location);
    assert Live(u) == Live(t)[i := u[i]];
    if n == t[i].length {
      var v := t[i := t[i].(location := InUse)];
      assert Live(v) == Live(t)[i := v[i]];
    }
  }

  lemma CarveRest(t: Table, i: SpanId, n: int, j: SpanId)
    requires Tiled(t) && i in t && j !in t && t[i].Free() && 1 <= n < t[i].length
    ensures var u, l := CutAt(t, i, n, j, InUse, t[i].location), t[i].location;
      && NoneEndsAt(u, {j}, l, u[j].start)
      && (Coalesced(t, {}, l) ==> NoneStartsAt(u, {j}, l, u[j].End()))
  {
    var u := CutAt(t, i, n, j, InUse, t[i].location);
    forall k | k in u && k != j && u[k].location == t[i].location ensures u[k].End() != u[j].start {
      assert Apart(t[k], t[i]);
    }
  }

  /** Handing out a whole span that is off all lists. */
  lemma CarveWhole(t: Table, i: SpanId, l: Location, b: Bins)
    requires i in t && t[i].Free()
    ensures var u := t[i := t[i].(location := InUse)];
      && Pages(u, l) == Pages(t, l) - Weight(t[i], l) + Weight(u[i], l)
      && (l != InUse && Filed(t, {i}, l, b) ==> Filed(u, {}, l, b))
      && (l != InUse && Coalesced(t, {i}, l) ==> Coalesced(u, {}, l))
  {
    var u := t[i := t[i].(location := InUse)];
    PagesUpdate(t, l, i, u[i]);
    if Filed(t, {i}, l, b) && l != InUse { Refile(t, {i}, u, {}, l, b); }
  }

  // ---------------------------------------------------------------- lemmas about in-use spans

  /** Edits that touch only spans in use before and after (or in the hole after) leave the books alone. */
  lemma InUseBooks(t: Table, u: Table, hole: set<SpanId>, l: Location, b: Bins)
    requires l != InUse
    requires forall k :: k in t && t[k].Free() ==> k in u && u[k] == t[k] && k !in hole
    requires forall k :: k in u && k !in hole && u[k].Free() ==> k in t && t[k] == u[k]
    ensures Filed(t, {}, l, b) ==> Filed(u, hole, l, b)
    ensures Coalesced(t, {}, l) ==> Coalesced(u, hole, l)
  {
    if Filed(t, {}, l, b) { Refile(t, {}, u, hole, l, b); }
  }

  /** A new span in use next to the spans of `t`. */
  lemma AddBooks(t: Table, i: SpanId, s: Span, l: Location, b: Bins)
    requires i !in t && s.location == InUse && l != InUse
    ensures Filed(t, {}, l, b) ==> Filed(t[i := s], {}, l, b)
    ensures Coalesced(t, {}, l) ==> Coalesced(t[i := s], {}, l)
    ensures Pages(t[i := s], l) == Pages(t, l)
    ensures Pages(t[i := s], InUse) == Pages(t, InUse) + s.length
    ensures Live(t[i := s]) - {i} == Live(t) && Absorbed(t, t[i := s])
  {
    InUseBooks(t, t[i := s], {}, l, b);
    PagesUpdate(t, l, i, s);
    PagesUpdate(t, InUse, i, s);
    forall k | k in t && t[k].Free() ensures Engulfed(t[k], t[i := s]) {
      assert t[k].Within(t[i := s][k]);
    }
  }

  /** Rounding up to a multiple of `unit` in 64-bit arithmetic; if that wraps, the largest multiple. */
  function RoundUpSize(n: int, unit: int): (r: int)
    requires 0 <= n < WordLimit && 1 <= unit <= PageLimit && WordLimit % unit == 0
    ensures 0 <= r < WordLimit && r % unit == 0
    ensures n <= WordLimit - unit ==> n <= r < n + unit
    ensures n > WordLimit - unit ==> r == WordLimit - unit
  {
    RoundFacts(n, unit);
    var w := (n + unit - 1) % WordLimit;
    var rounded := w - w % unit;
    if rounded < n then WordLimit - unit else rounded
  }

  lemma RoundFacts(n: int, unit: int)
    requires 0 <= n < WordLimit && 1 <= unit <= PageLimit && WordLimit % unit == 0
    ensures forall w: int :: 0 <= w ==> 0 <= w - w % unit <= w < (w - w % unit) + unit && (w - w % unit) % unit == 0
    ensures n > WordLimit - unit ==> (n + unit - 1) % WordLimit < n
    ensures n <= WordLimit - unit ==> (n + unit - 1) % WordLimit == n + unit - 1
    ensures (WordLimit - unit) % unit == 0
  {
    forall w: int | 0 <= w ensures 0 <= w - w % unit <= w < (w - w % unit) + unit && (w - w % unit) % unit == 0 {
      RoundDown(w, unit);
    }
    Multiple(WordLimit / unit - 1, unit);
    assert WordLimit - unit == (WordLimit / unit - 1) * unit;
  }

  lemma FreedEngulfed(t: Table, u: Table, id: SpanId, s: Span)
    requires Absorbed(t, u) && id in t && t[id].Free() && s.start == t[id].start && s.length == t[id].length
    ensures Engulfed(s, u)
  {
    assert Engulfed(t[id], u);
    var k :| k in u && u[k].Free() && t[id].Within(u[k]);
    assert s.Within(u[k]);
  }

  lemma EngulfedFits(s: Span, u: Table, n: int)
    requires Engulfed(s, u) && n <= s.length
    ensures Fits(u, n)
  {
    var k :| k in u && u[k].Free() && s.Within(u[k]);
    assert u[k].length >= n;
  }

  lemma TagInner(t: Table, pm: map<PageId, SpanId>, i: SpanId, p: PageId)
    requires Tiled(t) && Tagged(t, pm) && i in t && t[i].Covers(p)
    ensures Tagged(t, pm[p := i])
  {
    var qm := pm[p := i];
    assert Tags(t, qm) by {
      forall k | k in t ensures t[k].length >= 1 && TagsOf(t[k], k, qm) {
        assert TagsOf(t[k], k, pm);
        if k != i { assert Apart(t[k], t[i]); }
      }
    }
    forall q {:trigger Covered(t, q)} | q in qm ensures Covered(t, q) {
    }
  }

  lemma ClassTagged(t: Table, pm: map<PageId, SpanId>, i: SpanId, sc: int)
    requires Tiled(t) && Tagged(t, pm) && i in t && t[i].location == InUse
    requires forall p :: t[i].Covers(p) ==> MapsTo(pm, p, i)
    ensures Tiled(t[i := t[i].(sizeclass := sc)]) && Tagged(t[i := t[i].(sizeclass := sc)], pm)
  {
    var u := t[i := t[i].(sizeclass := sc)];
    forall a, b | a in u && b in u && a != b ensures Apart(u[a], u[b]) {
      assert Apart(t[a], t[b]);
    }
    assert Tags(u, pm) by {
      forall k | k in u ensures u[k].length >= 1 && TagsOf(u[k], k, pm) {
        assert TagsOf(t[k], k, pm);
      }
    }
    forall p {:trigger Covered(u, p)} | p in pm ensures Covered(u, p) {
      assert Covered(t, p);
      var a :| a in t && t[a].Covers(p);
      assert u[a].Covers(p);
    }
  }

  /** Pages to skip so that the rest starts at a multiple of `align`. */
  method SkipToAligned(start: int, align: int) returns (skip: int)
    requires start >= 0 && align >= 1
    ensures 0 <= skip < align && (start + skip) % align == 0
  {
    skip := 0;
    ghost var target := if start % align == 0 then 0 else align - start % align;
    assert (start + target) % align == 0 by {
      if start % align != 0 {
        Multiple(start / align + 1, align);
        assert start + target == (start / align + 1) * align;
      }
    }
    while (start + skip) % align != 0
      invariant 0 <= skip <= target < align
      decreases target - skip
    {
      skip := skip + 1;
    }
  }

  lemma LiveUpdate(t: Table, i: SpanId, s: Span)
    requires s.location == InUse
    ensures Live(t[i := s]) == Live(t)[i := s]
  {
  }

  lemma LiveKeys(t: Table, i: SpanId)
    ensures i in Live(t) <==> i in t && t[i].location == InUse
    ensures i in Live(t) ==> Live(t)[i] == t[i]
  {
  }

  lemma AbsorbedSelf(t: Table)
    ensures Absorbed(t, t)
  {
    forall i | i in t && t[i].Free() ensures Engulfed(t[i], t) {
      assert t[i].Within(t[i]);
    }
  }

  lemma SwallowedSelf(t: Table, i: SpanId)
    requires i in t && t[i].Free()
    ensures Swallowed(t, t, i)
  {
  }

  // ---------------------------------------------------------------- returned spans left unmerged

  /** No two returned spans touch. */
  ghost predicate Packed(t: Table) { Coalesced(t, {}, Returned) }

  /** Span `k` touches span `id` on one side. */
  ghost predicate Beside(t: Table, k: SpanId, id: SpanId, left: bool) {
    k in t && id in t && k != id && (if left then t[k].End() == t[id].start else t[id].End() == t[k].start)
  }

  /** On that side a normal span touches `id`, and a returned one touches the normal one beyond. */
  ghost predicate ExposedOn(t: Table, id: SpanId, left: bool) {
    exists a, b :: Beside(t, b, id, left) && Beside(t, a, b, left) && t[b].location == Normal && t[a].location == Returned && a != id
  }

  ghost predicate Exposed(t: Table, id: SpanId) { ExposedOn(t, id, true) || ExposedOn(t, id, false) }

  ghost predicate TouchOn(t: Table, id: SpanId, left: bool) {
    exists a :: Beside(t, a, id, left) && t[a].location == Returned
  }

  /** `u` is `t` after coalescing span `id` on one side; with `eager` a normal neighbour goes too. */
  ghost predicate SideMerged(t: Table, u: Table, id: SpanId, left: bool, eager: bool) {
    id in t &&
    if u == t then
      forall k :: Beside(t, k, id, left) ==> t[k].location != t[id].location && !(eager && t[k].location == Normal)
    else
      exists k :: Beside(t, k, id, left) && u == (t - {k})[id := Joined(t, id, k)] &&
        (t[k].location == t[id].location || (t[k].location == Normal && t[id].location == Returned))
  }

  lemma UnmergedSide(t: Table, id: SpanId, left: bool, eager: bool, other: Option<SpanId>)
    requires id in t && forall k :: Beside(t, k, id, left) <==> other == Some(k)
    requires other.Some? ==> Beside(t, other.value, id, left) && t[other.value].location != t[id].location
    requires other.Some? ==> !(eager && t[other.value].location == Normal)
    ensures SideMerged(t, t, id, left, eager)
  {
  }

  lemma MergedSide(t: Table, id: SpanId, left: bool, eager: bool, k: SpanId)
    requires Beside(t, k, id, left)
    requires t[k].location == t[id].location || (t[k].location == Normal && t[id].location == Returned)
    ensures SideMerged(t, (t - {k})[id := Joined(t, id, k)], id, left, eager)
  {
    assert k !in (t - {k})[id := Joined(t, id, k)];
  }

  lemma SideShape(t: Table, u: Table, id: SpanId, left: bool, eager: bool)
    requires Tiled(t) && SideMerged(t, u, id, left, eager)
    ensures Tiled(u) && id in u && u[id].location == t[id].location
  {
    hide Tiled;
    if u != t {
      var k :| Beside(t, k, id, left) && u == (t - {k})[id := Joined(t, id, k)];
      JoinTiled(t, id, k);
    }
  }

  ghost predicate WellApart(t: Table, a: SpanId, b: SpanId) {
    a in t && b in t && t[a].length >= 1 && t[b].length >= 1 && (a != b ==> Apart(t[a], t[b]))
  }

  lemma TwoApart(t: Table, a: SpanId, b: SpanId)
    requires Tiled(t) && a in t && b in t
    ensures WellApart(t, a, b)
  {
  }

  ghost function Join(t: Table, id: SpanId, k: SpanId): Table
    requires id in t && k in t
  {
    (t - {k})[id := Joined(t, id, k)]
  }

  /** Behind the neighbour that is taken in lies what then touches; the other side is as before. */
  lemma JoinBeside(t: Table, id: SpanId, k: SpanId, left: bool, a: SpanId)
    requires Tiled(t) && Beside(t, k, id, left)
    ensures Beside(Join(t, id, k), a, id, left) <==> a != id && Beside(t, a, k, left)
    ensures Beside(Join(t, id, k), a, id, !left) <==> Beside(t, a, id, !left)
  {
    hide Tiled;
    TwoApart(t, k, id);
    if a in t {
      TwoApart(t, a, id);
      TwoApart(t, a, k);
    }
  }

  lemma JoinBeyond(t: Table, id: SpanId, k: SpanId, left: bool, a: SpanId, b: SpanId)
    requires Tiled(t) && Beside(t, k, id, left) && Beside(t, b, id, !left) && a != id
    ensures Beside(Join(t, id, k), a, b, !left) <==> Beside(t, a, b, !left)
  {
    hide Tiled;
    TwoApart(t, k, id);
    TwoApart(t, b, k);
    TwoApart(t, b, id);
    if a in t {
      TwoApart(t, a, k);
      TwoApart(t, a, b);
    }
  }

  lemma OneBeside(t: Table, id: SpanId, k: SpanId, b: SpanId, left: bool)
    requires Tiled(t) && Beside(t, k, id, left) && Beside(t, b, id, left)
    ensures b == k
  {
    hide Tiled;
    TwoApart(t, k, b);
  }

  /** Nothing changes on the other side. */
  lemma OtherSide(t: Table, u: Table, id: SpanId, left: bool, eager: bool)
    requires Tiled(t) && SideMerged(t, u, id, left, eager)
    ensures TouchOn(u, id, !left) <==> TouchOn(t, id, !left)
    ensures ExposedOn(u, id, !left) <==> ExposedOn(t, id, !left)
  {
    hide Tiled;
    if u != t {
      var k :| Beside(t, k, id, left) && u == (t - {k})[id := Joined(t, id, k)];
      OtherTouch(t, id, k, left);
      OtherExposed(t, id, k, left);
    }
  }

  lemma OtherTouch(t: Table, id: SpanId, k: SpanId, left: bool)
    requires Tiled(t) && Beside(t, k, id, left)
    ensures TouchOn(Join(t, id, k), id, !left) <==> TouchOn(t, id, !left)
  {
    hide Tiled;
    var u, other := Join(t, id, k), !left;
    if TouchOn(u, id, other) {
      var a :| Beside(u, a, id, other) && u[a].location == Returned;
      JoinBeside(t, id, k, left, a);
    }
    if TouchOn(t, id, other) {
      var a :| Beside(t, a, id, other) && t[a].location == Returned;
      JoinBeside(t, id, k, left, a);
    }
  }

  lemma OtherExposed(t: Table, id: SpanId, k: SpanId, left: bool)
    requires Tiled(t) && Beside(t, k, id, left)
    ensures ExposedOn(Join(t, id, k), id, !left) <==> ExposedOn(t, id, !left)
  {
    hide Tiled;
    var u, other := Join(t, id, k), !left;
    if ExposedOn(u, id, other) {
      var a, b :| Beside(u, b, id, other) && Beside(u, a, b, other) && u[b].location == Normal && u[a].location == Returned && a != id;
      JoinBeside(t, id, k, left, b);
      JoinBeyond(t, id, k, left, a, b);
      assert Beside(t, b, id, other) && Beside(t, a, b, other);
    }
    if ExposedOn(t, id, other) {
      var a, b :| Beside(t, b, id, other) && Beside(t, a, b, other) && t[b].location == Normal && t[a].location == Returned && a != id;
      JoinBeside(t, id, k, left, b);
      JoinBeyond(t, id, k, left, a, b);
      assert Beside(u, b, id, other) && Beside(u, a, b, other);
    }
  }

  /** A returned span ends up touching `id` on a side only if it was behind a normal neighbour,
      and then always if that neighbour was taken in. */
  lemma SideExposed(t: Table, u: Table, id: SpanId, left: bool, eager: bool)
    requires Tiled(t) && SideMerged(t, u, id, left, eager) && t[id].location == Returned && Coalesced(t, {id}, Returned)
    ensures TouchOn(u, id, left) ==> ExposedOn(t, id, left)
    ensures eager && ExposedOn(t, id, left) ==> TouchOn(u, id, left)
    ensures Coalesced(u, {id}, Returned)
  {
    hide Tiled;
    if u != t {
      var k :| Beside(t, k, id, left) && u == (t - {k})[id := Joined(t, id, k)] &&
        (t[k].location == t[id].location || (t[k].location == Normal && t[id].location == Returned));
      JoinExposed(t, id, k, left);
    }
  }

  lemma JoinExposed(t: Table, id: SpanId, k: SpanId, left: bool)
    requires Tiled(t) && Beside(t, k, id, left) && t[id].location == Returned && Coalesced(t, {id}, Returned)
    requires t[k].location == Returned || t[k].location == Normal
    ensures TouchOn(Join(t, id, k), id, left) <==> ExposedOn(t, id, left)
  {
    hide Tiled;
    var u := Join(t, id, k);
    if TouchOn(u, id, left) {
      var a :| Beside(u, a, id, left) && u[a].location == Returned;
      JoinBeside(t, id, k, left, a);
      assert Beside(t, k, id, left) && Beside(t, a, k, left);
    }
    if ExposedOn(t, id, left) {
      var a, b :| Beside(t, b, id, left) && Beside(t, a, b, left) && t[b].location == Normal && t[a].location == Returned && a != id;
      OneBeside(t, id, k, b, left);
      JoinBeside(t, id, k, left, a);
      assert Beside(u, a, id, left);
    }
  }

  /** Coalescing never joins two touching returned spans to each other. */
  lemma SideRepairsNothing(t: Table, u: Table, id: SpanId, left: bool, eager: bool)
    requires Tiled(t) && SideMerged(t, u, id, left, eager) && !Coalesced(t, {id}, Returned)
    ensures !Coalesced(u, {id}, Returned) || TouchOn(u, id, left)
  {
    hide Tiled;
    var a, b :| a in t && b in t && a != id && b != id && t[a].location == Returned && t[b].location == Returned && t[a].End() == t[b].start;
    if u != t {
      var k :| Beside(t, k, id, left) && u == (t - {k})[id := Joined(t, id, k)];
      TwoApart(t, a, b);
      TwoApart(t, a, id);
      TwoApart(t, b, id);
      if a == k {
        JoinBeside(t, id, k, left, b);
        assert Beside(u, b, id, left);
      } else if b == k {
        JoinBeside(t, id, k, left, a);
        assert Beside(u, a, id, left);
      } else {
        assert a in u && b in u && u[a] == t[a] && u[b] == t[b];
      }
    }
  }

  lemma CoalescedAround(t: Table, id: SpanId)
    requires Tiled(t) && id in t && t[id].location == Returned
    ensures Coalesced(t, {}, Returned) <==> Coalesced(t, {id}, Returned) && !TouchOn(t, id, true) && !TouchOn(t, id, false)
  {
    assert t[id].length >= 1;
    if TouchOn(t, id, true) { var a :| Beside(t, a, id, true) && t[a].location == Returned; }
    if TouchOn(t, id, false) { var a :| Beside(t, a, id, false) && t[a].location == Returned; }
  }

  /** A normal span takes in normal spans only. */
  lemma NormalMerge(t: Table, u: Table, id: SpanId, left: bool, eager: bool)
    requires SideMerged(t, u, id, left, eager) && t[id].location == Normal
    ensures Coalesced(u, {id}, Returned) <==> Coalesced(t, {id}, Returned)
    ensures id in u && u[id].location == Normal
  {
    if u != t {
      var k :| Beside(t, k, id, left) && u == (t - {k})[id := Joined(t, id, k)] && t[k].location == Normal;
      forall a | a != id && a in t && t[a].location == Returned ensures a in u && u[a] == t[a] {}
    }
  }

  lemma HoleNormal(t: Table, id: SpanId)
    requires id in t ==> t[id].location != Returned
    ensures Coalesced(t, {}, Returned) <==> Coalesced(t, {id}, Returned)
  {
  }

  /** Both sides together: returned spans stay coalesced unless one of them was behind a normal
      neighbour that was taken in. */
  lemma BothSides(t: Table, t1: Table, u: Table, id: SpanId, eager1: bool, eager2: bool)
    requires Tiled(t) && id in t && t[id].Free() && SideMerged(t, t1, id, true, eager1) && SideMerged(t1, u, id, false, eager2)
    ensures Coalesced(t, {id}, Returned) && (t[id].location == Normal || !Exposed(t, id)) ==> Coalesced(u, {}, Returned)
    ensures t[id].location == Returned && eager1 && eager2 && Exposed(t, id) ==> !Coalesced(u, {}, Returned)
    ensures !Coalesced(t, {id}, Returned) ==> !Coalesced(u, {}, Returned)
  {
    hide Tiled, Coalesced, SideMerged, ExposedOn, TouchOn;
    SideShape(t, t1, id, true, eager1);
    SideShape(t1, u, id, false, eager2);
    if u[id].location == Normal {
      NormalMerge(t, t1, id, true, eager1);
      NormalMerge(t1, u, id, false, eager2);
      HoleNormal(u, id);
    } else {
      OtherSide(t, t1, id, true, eager1);
      OtherSide(t1, u, id, false, eager2);
      CoalescedAround(u, id);
      if Coalesced(t, {id}, Returned) {
        SideExposed(t, t1, id, true, eager1);
        SideExposed(t1, u, id, false, eager2);
      } else {
        SideRepairsNothing(t, t1, id, true, eager1);
        if !Coalesced(t1, {id}, Returned) { SideRepairsNothing(t1, u, id, false, eager2); }
      }
    }
  }

  /** Which label span `id` itself has does not matter for what lies around it. */
  lemma ExposedRelabel(t: Table, id: SpanId, s: Span)
    requires id in t && s.start == t[id].start && s.length == t[id].length
    ensures Exposed(t[id := s], id) <==> Exposed(t, id)
    ensures Coalesced(t[id := s], {id}, Returned) <==> Coalesced(t, {id}, Returned)
  {
    var u := t[id := s];
    forall left: bool, k ensures Beside(u, k, id, left) <==> Beside(t, k, id, left) {}
    forall left: bool, a, b | a != id && b != id ensures Beside(u, a, b, left) <==> Beside(t, a, b, left) {}
    forall left: bool ensures ExposedOn(u, id, left) <==> ExposedOn(t, id, left) {
      if ExposedOn(t, id, left) {
        var a, b :| Beside(t, b, id, left) && Beside(t, a, b, left) && t[b].location == Normal && t[a].location == Returned && a != id;
        assert Beside(u, b, id, left) && Beside(u, a, b, left);
      }
      if ExposedOn(u, id, left) {
        var a, b :| Beside(u, b, id, left) && Beside(u, a, b, left) && u[b].location == Normal && u[a].location == Returned && a != id;
        assert Beside(t, b, id, left) && Beside(t, a, b, left);
      }
    }
  }

  /** The normal spans of `u` are those of `t` without `id`. */
  ghost predicate NormalsBut(t: Table, u: Table, id: SpanId) {
    && (forall k :: k in u && u[k].location == Normal ==> k in t && k != id && t[k] == u[k])
    && (forall k :: k in t && k != id && t[k].location == Normal ==> k in u && u[k] == t[k])
  }

  ghost predicate SameNormals(t: Table, u: Table) {
    && (forall k :: k in u && u[k].location == Normal ==> k in t && t[k] == u[k])
    && (forall k :: k in t && t[k].location == Normal ==> k in u && u[k] == t[k])
  }

  lemma SameNormalsTrans(t: Table, u: Table, v: Table)
    requires SameNormals(t, u) && SameNormals(u, v)
    ensures SameNormals(t, v)
  {
  }

  /** Normal spans of `u` were so in `t`. */
  ghost predicate NormalsFrom(t: Table, u: Table) {
    forall k :: k in u && u[k].location == Normal ==> k in t && t[k] == u[k]
  }

  /** Pages of a returned span are still in a returned span. */
  ghost predicate StayReturned(t: Table, u: Table) {
    forall i :: i in t && t[i].location == Returned ==> InReturned(t[i], u)
  }

  ghost predicate InReturned(s: Span, u: Table) {
    exists k :: k in u && u[k].location == Returned && s.Within(u[k])
  }

  /** The span of bin `k` that is released first: the oldest of a list, the least of the large set. */
  ghost predicate OldestOf(t: Table, b: Bins, k: int, i: SpanId) {
    if k == MaxPages then i in b.large && i in t && b.large <= t.Keys && NoBetter(t, b.large, 0, i)
    else 0 <= k < |b.small| && b.small[k] != [] && i == b.small[k][|b.small[k]| - 1]
  }

  /** Without the last span released, the request was not met yet. */
  ghost predicate NeededLast(t: Table, released: int, want: int) {
    exists i :: i in t && t[i].location == Normal && released - t[i].length < want
  }

  lemma NeededFrom(t: Table, u: Table, i: SpanId, released: int, want: int)
    requires NormalsFrom(t, u) && i in u && u[i].location == Normal && released - u[i].length < want
    ensures NeededLast(t, released, want)
  {
    assert i in t && t[i] == u[i];
  }

  lemma StaySelf(t: Table)
    ensures StayReturned(t, t) && NormalsFrom(t, t)
  {
    forall i | i in t && t[i].location == Returned ensures InReturned(t[i], t) { assert t[i].Within(t[i]); }
  }

  lemma StayTrans(t: Table, u: Table, v: Table)
    ensures NormalsFrom(t, u) && NormalsFrom(u, v) ==> NormalsFrom(t, v)
    ensures StayReturned(t, u) && StayReturned(u, v) ==> StayReturned(t, v)
  {
    if StayReturned(t, u) && StayReturned(u, v) {
      forall i | i in t && t[i].location == Returned ensures InReturned(t[i], v) {
        assert InReturned(t[i], u);
        var k :| k in u && u[k].location == Returned && t[i].Within(u[k]);
        assert InReturned(u[k], v);
        var m :| m in v && v[m].location == Returned && u[k].Within(v[m]);
        assert t[i].Within(v[m]);
      }
    }
  }

  /** A returned span with no normal span beside it takes in returned spans only. */
  lemma ReturnedOnSide(t: Table, u: Table, id: SpanId, left: bool, eager: bool)
    requires SideMerged(t, u, id, left, eager) && t[id].location == Returned && NoneBeside(t, id, Normal)
    ensures id in u && u[id].location == Returned
    ensures SameNormals(t, u)
  {
  }

  lemma OtherNone(t: Table, u: Table, id: SpanId, left: bool, eager: bool)
    requires Tiled(t) && SideMerged(t, u, id, left, eager) && t[id].location == Returned && NoneBeside(t, id, Normal)
    ensures forall k :: Beside(u, k, id, !left) ==> u[k].location != Normal
  {
    hide Tiled;
    if u != t {
      var j :| Beside(t, j, id, left) && u == (t - {j})[id := Joined(t, id, j)];
      var other := !left;
      forall k | Beside(u, k, id, other) ensures u[k].location != Normal {
        JoinBeside(t, id, j, left, k);
      }
    }
  }

  /** On one side only the span beside it matters. */
  lemma ReturnedOnOther(t: Table, u: Table, id: SpanId, left: bool, eager: bool)
    requires SideMerged(t, u, id, left, eager) && t[id].location == Returned
    requires forall k :: Beside(t, k, id, left) ==> t[k].location != Normal
    ensures id in u && u[id].location == Returned
    ensures SameNormals(t, u)
  {
  }

  lemma LonelyNone(t: Table, id: SpanId)
    requires id in t && NoneEndsAt(t, {id}, Normal, t[id].start) && NoneStartsAt(t, {id}, Normal, t[id].End())
    ensures NoneBeside(t, id, Normal)
  {
  }

  /** What merging with both neighbours does to normal spans when none touches. */
  lemma NormalsAround(t: Table, t1: Table, u: Table, id: SpanId, eager1: bool, eager2: bool)
    requires Tiled(t) && SideMerged(t, t1, id, true, eager1) && SideMerged(t1, u, id, false, eager2)
    ensures id in t && id in u
    ensures u[id].location == Normal && NoneBeside(t, id, Normal) ==> u == t
    ensures u[id].location == Returned && NoneBeside(t, id, Normal) ==> SameNormals(t, u)
  {
    hide SideMerged, NoneBeside, SameNormals, Tiled;
    assert id in t by { SideShape(t, t1, id, true, eager1); InBefore(t, t1, id, true, eager1); }
    SideShape(t, t1, id, true, eager1);
    SideShape(t1, u, id, false, eager2);
    if NoneBeside(t, id, Normal) {
      if t[id].location == Normal {
        AloneOnSide(t, t1, id, true, eager1);
        AloneOnSide(t1, u, id, false, eager2);
      } else if t[id].location == Returned {
        ReturnedOnSide(t, t1, id, true, eager1);
        OtherNone(t, t1, id, true, eager1);
        ReturnedOnOther(t1, u, id, false, eager2);
        SameNormalsTrans(t, t1, u);
      }
    }
  }

  lemma InBefore(t: Table, u: Table, id: SpanId, left: bool, eager: bool)
    requires SideMerged(t, u, id, left, eager)
    ensures id in t
  {
  }

  /** A released span: what the swallowing of its neighbours means for the other spans. */
  lemma ReleasedFacts(t: Table, u: Table, id: SpanId)
    requires id in t && t[id].location == Normal
    requires var t0 := t[id := t[id].(location := Returned, sizeclass := 0)];
      Swallowed(t, t0, id) && Swallowed(t0, u, id) && u[id].location == Returned && SameNormals(t0, u)
    ensures Live(u) == Live(t) - {id} && Absorbed(t, u)
    ensures StayReturned(t, u) && NormalsBut(t, u, id) && NormalsFrom(t, u)
  {
    hide Live, Absorbed, StayReturned, SameNormals, Swallowed, NormalsBut;
    var t0 := t[id := t[id].(location := Returned, sizeclass := 0)];
    assert id in u by { SwallowedIn(t0, u, id); }
    SwallowedTrans(t, t0, u, id);
    SwallowedFacts(t, u, id);
    SwallowedReturned(t, u, id);
    StayRelabel(t, id, t0[id], u);
    ButFrom(t, u, id);
  }

  lemma SwallowedIn(t: Table, u: Table, id: SpanId)
    requires Swallowed(t, u, id)
    ensures id in t && id in u
  {
  }

  lemma ButFrom(t: Table, u: Table, id: SpanId)
    requires NormalsBut(t, u, id)
    ensures NormalsFrom(t, u)
  {
  }

  /** A swallowed returned span lies in the returned span that swallowed it. */
  lemma SwallowedReturned(t: Table, u: Table, id: SpanId)
    requires Swallowed(t, u, id) && u[id].location == Returned
    ensures StayReturned(t, u)
  {
    forall i | i in t && t[i].location == Returned ensures InReturned(t[i], u) {
      if i in u && i != id { assert t[i].Within(u[i]); } else { assert t[i].Within(u[id]); }
    }
  }

  lemma StayRelabel(t: Table, id: SpanId, s: Span, u: Table)
    requires id in t && t[id].location == Normal && s.location == Returned && s.start == t[id].start && s.length == t[id].length
    ensures StayReturned(t[id := s], u) ==> StayReturned(t, u)
    ensures SameNormals(t[id := s], u) ==> NormalsBut(t, u, id)
  {
    var v := t[id := s];
    if StayReturned(v, u) {
      forall i | i in t && t[i].location == Returned ensures InReturned(t[i], u) { assert InReturned(v[i], u); }
    }
  }

  ghost predicate FreePage(t: Table, p: PageId) {
    exists i :: i in t && t[i].Free() && t[i].Covers(p)
  }

  /** The `n` pages from `p` on are all free, perhaps in several spans. */
  ghost predicate FreeRun(t: Table, p: PageId, n: int) {
    forall q :: p <= q < p + n ==> FreePage(t, q)
  }

  lemma RunStays(t: Table, u: Table, p: PageId, n: int)
    requires Absorbed(t, u) && FreeRun(t, p, n)
    ensures FreeRun(u, p, n)
  {
    forall q | p <= q < p + n ensures FreePage(u, q) {
      assert FreePage(t, q);
      var i :| i in t && t[i].Free() && t[i].Covers(q);
      assert Engulfed(t[i], u);
      var k :| k in u && u[k].Free() && t[i].Within(u[k]);
      assert u[k].Covers(q);
    }
  }

  /** If all free spans are returned spans, maximally joined, then pages that are free in a row are in one span. */
  lemma {:induction false} RunInOne(t: Table, p: PageId, n: int) returns (i: SpanId)
    requires n >= 1 && FreeRun(t, p, n) && Packed(t) && Tiled(t)
    requires forall k :: k in t ==> t[k].location != Normal
    ensures i in t && t[i].Free() && t[i].Covers(p) && t[i].Covers(p + n - 1)
    decreases n
  {
    assert FreePage(t, p + n - 1);
    i :| i in t && t[i].Free() && t[i].Covers(p + n - 1);
    if n > 1 {
      var k := RunInOne(t, p, n - 1);
      assert t[k].location == Returned == t[i].location;
      assert k == i;
    }
  }

  lemma LongFits(t: Table, i: SpanId, p: PageId, n: int)
    requires i in t && t[i].Free() && t[i].Covers(p) && t[i].Covers(p + n - 1)
    ensures Fits(t, n)
  {
  }

  ghost predicate NoneBeside(t: Table, id: SpanId, l: Location) {
    forall k, left :: Beside(t, k, id, left) ==> t[k].location != l
  }

  /** A normal span with no normal span beside it takes in nothing. */
  lemma AloneOnSide(t: Table, u: Table, id: SpanId, left: bool, eager: bool)
    requires SideMerged(t, u, id, left, eager) && t[id].location == Normal && NoneBeside(t, id, Normal)
    ensures u == t
  {
  }

  lemma NoneBesideRelabel(t: Table, id: SpanId, s: Span, l: Location)
    requires id in t && s.start == t[id].start && s.length == t[id].length
    ensures NoneBeside(t[id := s], id, l) <==> NoneBeside(t, id, l)
  {
    var u := t[id := s];
    forall k, left: bool ensures Beside(u, k, id, left) <==> Beside(t, k, id, left) {}
  }

  /** `counter` is a thousand pages for every page released, divided by the rate, without the fraction, or the
      longest delay if that is shorter. */
  ghost predicate Waits(counter: int, rate: real, released: int) {
    && rate > 0.0 && 0 <= counter <= MaxReleaseDelay
    && var wait := 1000.0 / rate * released as real;
       if wait > MaxReleaseDelay as real then counter == MaxReleaseDelay else counter as real <= wait < counter as real + 1.0
  }

  lemma Waited(rate: real, released: int, counter: int)
    requires rate > 0.0 && released > 0
    requires var wait := 1000.0 / rate * released as real;
      counter == if wait > MaxReleaseDelay as real then MaxReleaseDelay else wait.Floor
    ensures Waits(counter, rate, released) && counter >= 0
  {
    var mult := 1000.0 / rate;
    assert mult > 0.0;
    assert mult * released as real >= 0.0;
  }

  class PageHeap {
    const smallestSpan: int
    var spans: Table
    var pagemap: map<PageId, SpanId>
    var normal: Bins
    var returned: Bins
    var systemPages: int
    var freePages: int
    var unmappedPages: int
    var committedPages: int
    var scavengeCounter: int
    var releaseIndex: int
    var aggressive: bool
    var releaseRate: real            // pages released per thousand pages freed
    var limit: int                   // heap limit, 0 for none
    var taken: int                   // everything taken from the system, metadata included
    ghost var lost: int              // charged, but refused by the page map
    ghost var wasAggressive: bool    // aggressive decommit has been on at some time
    ghost var refusals: int          // releases the system refused
    ghost var denials: int           // requests for memory the system did not meet

    ghost predicate Shaped(hole: set<SpanId>)
      reads this
    {
      Tiled(spans) && Tagged(spans, pagemap) && hole <= spans.Keys
    }

    ghost predicate Listed(hole: set<SpanId>)
      reads this
    {
      Filed(spans, hole, Normal, normal) && Filed(spans, hole, Returned, returned)
    }

    /** Touching normal spans are always merged; touching returned ones are
        merged as long as aggressive decommit has never been on. */
    ghost predicate Merged(hole: set<SpanId>)
      reads this
    {
      && Coalesced(spans, hole, Normal)
      && (!wasAggressive ==> Coalesced(spans, hole, Returned))
    }

    ghost predicate Ledger(sl: Slack)
      reads this
    {
      && freePages + sl.normal == Pages(spans, Normal)
      && unmappedPages + sl.returned == Pages(spans, Returned)
      && committedPages + Pages(spans, Returned) + sl.debt == systemPages
      && systemPages == Total(spans) + lost
      && 0 <= lost && systemPages <= taken
    }

    ghost predicate Inv(sl: Slack)
      reads this
    {
      && Shaped(sl.hole) && Listed(sl.hole) && Merged(sl.hole) && Ledger(sl)
      && (aggressive ==> wasAggressive)
      && 0 <= releaseIndex <= MaxPages + 1
      && 0 <= limit && 1 <= smallestSpan <= PageLimit && WordLimit % smallestSpan == 0
    }

    /** The state between operations. */
    ghost predicate Valid()
      reads this
    {
      Inv(Tight)
    }

    // -------------------------------------------------------------- lists and commit state

    method RemoveFromFreeList(id: SpanId, ghost sl: Slack)
      requires Inv(sl) && id in spans && id !in sl.hole && spans[id].Free()
      modifies `normal, `returned, `freePages, `unmappedPages
      ensures Inv(Hold(sl, id, spans[id]))
      ensures freePages == old(freePages) - Weight(spans[id], Normal)
      ensures unmappedPages == old(unmappedPages) - Weight(spans[id], Returned)
    {
      hide Tiled, Tagged, Filed, Pages, Coalesced;
      var length := spans[id].length;
      Sizes(spans, sl.hole, Normal, normal, id);
      Sizes(spans, sl.hole, Returned, returned, id);
      TakeFiles(spans, sl.hole, Normal, normal, id);
      TakeFiles(spans, sl.hole, Returned, returned, id);
      CoalescedMono(spans, sl.hole, sl.hole + {id}, Normal);
      if !wasAggressive { CoalescedMono(spans, sl.hole, sl.hole + {id}, Returned); }
      if spans[id].location == Normal {
        freePages := freePages - length;
        normal := Take(normal, id, length);
      } else {
        unmappedPages := unmappedPages - length;
        returned := Take(returned, id, length);
      }
    }

    /** The list must not already hold a touching span of the same location. */
    ghost predicate Insertable(id: SpanId, hole: set<SpanId>)
      reads this
    {
      id in spans &&
      (spans[id].location == Normal || !wasAggressive ==>
        && NoneEndsAt(spans, hole, spans[id].location, spans[id].start)
        && NoneStartsAt(spans, hole, spans[id].location, spans[id].End()))
    }

    method PrependToFreeList(id: SpanId, ghost sl: Slack)
      requires id in spans && id !in sl.hole && spans[id].Free()
      requires Inv(Hold(sl, id, spans[id])) && Insertable(id, sl.hole + {id})
      modifies `normal, `returned, `freePages, `unmappedPages
      ensures Inv(sl)
      ensures freePages == old(freePages) + Weight(spans[id], Normal)
      ensures unmappedPages == old(unmappedPages) + Weight(spans[id], Returned)
    {
      hide Tiled, Tagged, Filed, Pages, Coalesced, NoneEndsAt, NoneStartsAt;
      var length := spans[id].length;
      Sizes(spans, sl.hole + {id}, Normal, normal, id);
      Sizes(spans, sl.hole + {id}, Returned, returned, id);
      assert sl.hole + {id} - {id} == sl.hole;
      PutFiles(spans, sl.hole + {id}, Normal, normal, id);
      PutFiles(spans, sl.hole + {id}, Returned, returned, id);
      CoalescedInsert(spans, sl.hole + {id}, Normal, id);
      if !wasAggressive { CoalescedInsert(spans, sl.hole + {id}, Returned, id); }
      if spans[id].location == Normal {
        freePages := freePages + length;
        normal := Put(normal, id, length);
      } else {
        unmappedPages := unmappedPages + length;
        returned := Put(returned, id, length);
      }
    }

    /** The system may refuse; the answer is not determined by the heap's state. */
    method SystemRelease() returns (ok: bool)
      modifies `refusals
      ensures refusals == old(refusals) + (if ok then 0 else 1)
    {
      ok := *;
      if !ok {
        refusals := refusals + 1;
      }
    }

    method DecommitSpan(id: SpanId) returns (ok: bool)
      requires id in spans
      modifies `committedPages, `refusals
      ensures committedPages == old(committedPages) - (if ok then spans[id].length else 0)
      ensures refusals == old(refusals) + (if ok then 0 else 1)
    {
      ok := SystemRelease();
      if ok {
        committedPages := committedPages - spans[id].length;
      }
    }

    // -------------------------------------------------------------- coalescing

    function Descriptor(p: PageId): (r: Option<SpanId>)
      reads this
    {
      if p in pagemap then Some(pagemap[p]) else None
    }

    /** A neighbour merges when its location is the same, or, in aggressive mode,
        when it is normal and `id` is returned (it is then released too). */
    ghost predicate Mergeable(t: Table, id: SpanId, k: SpanId)
      reads this
    {
      && id in t && k in t
      && (t[k].location == t[id].location || (aggressive && t[k].location == Normal && t[id].location == Returned))
    }

    /** Decides whether `other`, a neighbour still on its list, merges into `id`; if so takes it
        off its list (in aggressive mode after releasing it to match a returned `id`). */
    method CheckAndHandlePreMerge(id: SpanId, other: Option<SpanId>) returns (r: Option<SpanId>)
      requires id in spans && spans[id].Free() && Inv(Hold(Tight, id, spans[id]))
      requires other.Some? ==> other.value in spans && other.value != id
      modifies `normal, `returned, `freePages, `unmappedPages, `committedPages, `refusals
      ensures r.Some? <==> other.Some? && refusals == old(refusals) && Mergeable(spans, id, other.value)
      ensures r.None? ==> Inv(Hold(Tight, id, spans[id]))
      ensures r.None? ==> freePages == old(freePages) && unmappedPages == old(unmappedPages)
      ensures r.None? && other.Some? ==> spans[other.value].location != spans[id].location
      ensures r.Some? ==> r == other && spans[r.value].Free()
      ensures r.Some? ==> Inv(Hold(Hold(Tight, id, spans[id]), r.value, spans[r.value])
                                .(debt := if spans[r.value].location != spans[id].location then spans[r.value].length else 0))
      ensures r.Some? && spans[r.value].location != spans[id].location ==>
                aggressive && spans[r.value].location == Normal && spans[id].location == Returned
      ensures r.Some? ==> freePages == old(freePages) - Weight(spans[r.value], Normal)
      ensures r.Some? ==> unmappedPages == old(unmappedPages) - Weight(spans[r.value], Returned)
      ensures old(refusals) <= refusals
      ensures refusals != old(refusals) ==>
                aggressive && other.Some? && spans[other.value].location == Normal && spans[id].location == Returned
    {
      hide Tiled, Tagged, Filed, Pages, Coalesced;
      if other.None? {
        return None;
      }
      var k := other.value;
      ghost var sl := Hold(Tight, id, spans[id]);
      if aggressive && spans[k].location == Normal && spans[id].location == Returned {
        var worked := DecommitSpan(k);
        if !worked {
          return None;
        }
        sl := sl.(debt := spans[k].length);
      } else if spans[k].location != spans[id].location {
        return None;
      }
      RemoveFromFreeList(k, sl);
      return Some(k);
    }

    /** One side of coalescing: `p` is the page just before or just after span `id`. */
    method MergeSide(id: SpanId, p: PageId)
      requires id in spans && spans[id].Free() && Inv(Hold(Tight, id, spans[id]))
      requires p == spans[id].start - 1 || p == spans[id].End()
      modifies `spans, `pagemap, `normal, `returned, `freePages, `unmappedPages, `committedPages, `refusals
      ensures id in spans && Swallowed(old(spans), spans, id) && old(spans[id]).Within(spans[id])
      ensures spans[id].location == old(spans[id].location)
      ensures Inv(Hold(Tight, id, spans[id]))
      ensures var k := old(Descriptor(p));
        if k.Some? && refusals == old(refusals) && Mergeable(old(spans), id, k.value)
        then spans == (old(spans) - {k.value})[id := Joined(old(spans), id, k.value)]
        else spans == old(spans)
      ensures SideMerged(old(spans), spans, id, p < old(spans[id].start), aggressive && refusals == old(refusals))
      ensures freePages + unmappedPages + spans[id].length == old(freePages + unmappedPages + spans[id].length)
      ensures p < old(spans[id].start) ==> SideDone(old(spans), old(freePages), old(refusals), id, true)
      ensures p >= old(spans[id].start) ==> SideDone(old(spans), old(freePages), old(refusals), id, false)
      ensures old(refusals) <= refusals && (!aggressive ==> refusals == old(refusals))
      ensures freePages <= old(freePages) && (spans[id].location == Normal ==> unmappedPages == old(unmappedPages))
    {
      hide Tiled, Tagged, Filed, Pages, Coalesced, Swallowed, NoneEndsAt, NoneStartsAt, Touch, SideMerged;
      assert Tight.hole + {id} == {id};
      ghost var t, r0 := spans, refusals;
      var left := p < spans[id].start;
      NeighbourAt(id, p);
      BesideTagged(id, p);
      ghost var other := Descriptor(p);
      var r := CheckAndHandlePreMerge(id, Descriptor(p));
      if Descriptor(p).Some? { JoinSide(spans, id, Descriptor(p).value, spans[id].location); }
      if r.None? {
        SwallowedSelf(spans, id);
        NoNeighbour(id, p);
        UnmergedSide(t, id, left, aggressive && refusals == r0, other);
      } else {
        MergedSide(t, id, left, aggressive && refusals == r0, r.value);
        AbsorbNeighbour(id, r.value, left);
      }
    }

    /** The page map entry next to a span leads to the span beside it, if there is one. */
    lemma BesideTagged(id: SpanId, p: PageId)
      requires id in spans && Shaped({id})
      requires p == spans[id].start - 1 || p == spans[id].End()
      ensures forall k :: Beside(spans, k, id, p < spans[id].start) <==> Descriptor(p) == Some(k)
    {
      hide Tiled, Tagged;
      NeighbourAt(id, p);
      forall k ensures Beside(spans, k, id, p < spans[id].start) <==> Descriptor(p) == Some(k) {
        if k in spans { OwnTags(spans, pagemap, k); }
      }
    }

    /** Deletes the descriptor of neighbour `k` and widens `id` over its pages. */
    method AbsorbNeighbour(id: SpanId, k: SpanId, left: bool)
      requires id in spans && k in spans && id != k && spans[id].Free() && spans[k].Free()
      requires spans[id].length >= 1 && spans[k].length >= 1
      requires if left then spans[k].End() == spans[id].start else spans[id].End() == spans[k].start
      requires Inv(Hold(Hold(Tight, id, spans[id]), k, spans[k])
                     .(debt := if spans[k].location != spans[id].location then spans[k].length else 0))
      requires spans[k].location != spans[id].location ==> spans[id].location == Returned
      modifies `spans, `pagemap
      ensures spans == (old(spans) - {k})[id := Joined(old(spans), id, k)]
      ensures Inv(Hold(Tight, id, spans[id]))
    {
      hide Tiled, Tagged, Filed, Pages, Coalesced;
      ghost var t, pm := spans, pagemap;
      assert Tight.hole + {id} == {id};
      var s, n := spans[id], spans[k];
      s := s.(start := if left then n.start else s.start, length := s.length + n.length);
      spans := (spans - {k})[id := s];
      pagemap := pagemap[(if left then s.start else s.End() - 1) := id];
      assert s == Joined(t, id, k);
      JoinShape(t, pm, id, k, pagemap, left);
      JoinBooks(t, id, k, Normal, normal);
      JoinBooks(t, id, k, Returned, returned);
      JoinBooks(t, id, k, InUse, normal);
    }

    /** With nothing to merge on the side of page `p`, no span of the same location touches there. */
    lemma NoNeighbour(id: SpanId, p: PageId)
      requires id in spans && Shaped({id})
      requires p == spans[id].start - 1 || p == spans[id].End()
      requires p in pagemap ==> pagemap[p] in spans && spans[pagemap[p]].location != spans[id].location
      ensures p < spans[id].start ==> NoneEndsAt(spans, {id}, spans[id].location, spans[id].start)
      ensures p >= spans[id].start ==> NoneStartsAt(spans, {id}, spans[id].location, spans[id].End())
    {
      assert spans[id].length >= 1;
      forall k | k in spans ensures TagsOf(spans[k], k, pagemap) {}
    }

    ghost predicate SideDone(t: Table, free: int, refused: int, id: SpanId, left: bool)
      requires id in t && id in spans
      reads this
    {
      var l := spans[id].location;
      if left then
        && spans[id].End() == t[id].End()
        && (l == Normal || !wasAggressive ==> NoneEndsAt(spans, {id}, l, spans[id].start))
        && (l == Returned && NoneEndsAt(t, {id}, Normal, t[id].start) ==> freePages == free && refusals == refused)
      else
        && spans[id].start == t[id].start
        && (l == Normal || !wasAggressive ==> NoneStartsAt(spans, {id}, l, spans[id].End()))
        && (l == Returned && NoneStartsAt(t, {id}, Normal, t[id].End()) ==> freePages == free && refusals == refused)
    }

    lemma NeighbourAt(id: SpanId, p: PageId)
      requires id in spans && Shaped({id})
      requires p == spans[id].start - 1 || p == spans[id].End()
      ensures spans[id].length >= 1
      ensures p in pagemap ==> pagemap[p] in spans && Touch(spans, id, pagemap[p]) && spans[pagemap[p]].length >= 1
      ensures p in pagemap && p < spans[id].start ==> spans[pagemap[p]].End() == spans[id].start
      ensures p in pagemap && p >= spans[id].start ==> spans[pagemap[p]].start == spans[id].End()
    {
      assert spans[id].length >= 1;
      if p in pagemap {
        if p < spans[id].start { LeftNeighbour(spans, pagemap, id); } else { RightNeighbour(spans, pagemap, id); }
      }
    }

    /** No normal span touches span `id`. */
    ghost predicate Lonely(t: Table, id: SpanId)
      requires id in t
    {
      NoneEndsAt(t, {id}, Normal, t[id].start) && NoneStartsAt(t, {id}, Normal, t[id].End())
    }

    /** Changes the location of a span that is off all lists. */
    method Relabel(id: SpanId, location: Location, ghost debt: int)
      requires id in spans && Inv(Hold(Tight, id, spans[id]).(debt := debt))
      requires location != InUse
      requires debt == (if location == Returned && spans[id].location != Returned then spans[id].length else 0)
      requires spans[id].location == Returned ==> location == Returned
      modifies `spans
      ensures spans == old(spans)[id := old(spans[id]).(location := location, sizeclass := 0)]
      ensures Inv(Hold(Tight, id, spans[id]))
    {
      hide Tiled, Tagged, Filed, Pages, Coalesced;
      ghost var t := spans;
      assert Tight.hole + {id} == {id};
      spans := spans[id := spans[id].(location := location, sizeclass := 0)];
      MoveTiled(t, pagemap, id, spans[id]);
      RelabelBooks(t, id, spans[id], Normal, normal);
      RelabelBooks(t, id, spans[id], Returned, returned);
      RelabelBooks(t, id, spans[id], InUse, normal);
    }

    /** In aggressive mode a span about to be freed is released first. */
    method DecommitIfAggressive(id: SpanId)
      requires id in spans && spans[id].Free() && Inv(Hold(Tight, id, spans[id]))
      modifies `spans, `committedPages, `refusals
      ensures id in spans && spans[id].Free() && Inv(Hold(Tight, id, spans[id]))
      ensures Swallowed(old(spans), spans, id) && spans[id].length >= 1
      ensures spans == old(spans)[id := old(spans[id]).(location := spans[id].location, sizeclass := spans[id].sizeclass)]
      ensures !aggressive || old(spans[id].location) == Returned ==> spans == old(spans) && refusals == old(refusals)
      ensures aggressive && refusals == old(refusals) ==> spans[id].location == Returned
      ensures old(refusals) <= refusals
    {
      hide Tiled, Tagged, Filed, Pages, Coalesced, Swallowed;
      SwallowedSelf(spans, id);
      NoClass(spans, id);
      if aggressive && spans[id].location == Normal {
        var ok := DecommitSpan(id);
        if ok {
          RelabelSwallowed(spans, id, Returned);
          Relabel(id, Returned, spans[id].length);
        }
      }
    }

    method MergeIntoFreeList(id: SpanId)
      requires id in spans && spans[id].Free() && Inv(Hold(Tight, id, spans[id]))
      modifies `spans, `pagemap, `normal, `returned, `freePages, `unmappedPages, `committedPages, `refusals
      ensures Valid() && Swallowed(old(spans), spans, id)
      ensures freePages + unmappedPages == old(freePages + unmappedPages + spans[id].length)
      ensures old(spans[id].location) == Returned ==> spans[id].location == Returned
      ensures old(spans[id].location) == Returned && Lonely(old(spans), id) ==>
                freePages == old(freePages) && refusals == old(refusals)
      ensures !aggressive ==> spans[id].location == old(spans[id].location) && refusals == old(refusals)
      ensures aggressive && refusals == old(refusals) ==> spans[id].location == Returned
      ensures old(refusals) <= refusals
      ensures if spans[id].location == Normal then unmappedPages == old(unmappedPages) else freePages <= old(freePages)
      ensures Coalesced(old(spans), {id}, Returned) && (spans[id].location == Normal || !Exposed(old(spans), id)) ==>
                Packed(spans)
      ensures aggressive && refusals == old(refusals) && Exposed(old(spans), id) ==> !Packed(spans)
      ensures !Coalesced(old(spans), {id}, Returned) ==> !Packed(spans)
      ensures !aggressive && old(spans[id].location) == Normal && NoneBeside(old(spans), id, Normal) ==> spans == old(spans)
      ensures old(spans[id].location) == Returned && NoneBeside(old(spans), id, Normal) ==> SameNormals(old(spans), spans)
    {
      hide Tiled, Tagged, Filed, Pages, Coalesced, Swallowed, NoneEndsAt, NoneStartsAt, Inv, Exposed, NoneBeside, SameNormals;
      assert Tight.hole + {id} == {id};
      ghost var t := spans;
      DecommitIfAggressive(id);
      ghost var t0 := spans;
      ExposedRelabel(t, id, t0[id]);
      MergeNeighbours(id);
      SwallowedTrans(t, t0, spans, id);
      PrependToFreeList(id, Tight);
    }

    /** Merges span `id`, on no list, with its neighbours on both sides. */
    method MergeNeighbours(id: SpanId)
      requires id in spans && spans[id].Free() && Inv(Hold(Tight, id, spans[id]))
      modifies `spans, `pagemap, `normal, `returned, `freePages, `unmappedPages, `committedPages, `refusals
      ensures id in spans && Inv(Hold(Tight, id, spans[id])) && Insertable(id, {id})
      ensures Swallowed(old(spans), spans, id) && spans[id].location == old(spans[id].location)
      ensures freePages + unmappedPages + spans[id].length == old(freePages + unmappedPages + spans[id].length)
      ensures old(refusals) <= refusals && (!aggressive ==> refusals == old(refusals))
      ensures freePages <= old(freePages) && (spans[id].location == Normal ==> unmappedPages == old(unmappedPages))
      ensures spans[id].location == Returned && Lonely(old(spans), id) ==> freePages == old(freePages) && refusals == old(refusals)
      ensures Coalesced(old(spans), {id}, Returned) && (spans[id].location == Normal || !Exposed(old(spans), id)) ==>
                Coalesced(spans, {}, Returned)
      ensures spans[id].location == Returned && aggressive && refusals == old(refusals) && Exposed(old(spans), id) ==>
                !Coalesced(spans, {}, Returned)
      ensures !Coalesced(old(spans), {id}, Returned) ==> !Coalesced(spans, {}, Returned)
      ensures spans[id].location == Normal && NoneBeside(old(spans), id, Normal) ==> spans == old(spans)
      ensures spans[id].location == Returned && NoneBeside(old(spans), id, Normal) ==> SameNormals(old(spans), spans)
    {
      hide Tiled, Tagged, Filed, Pages, Coalesced, Swallowed, NoneEndsAt, NoneStartsAt, Inv, SideMerged, Exposed, NoneBeside, SameNormals;
      InvTiled(Hold(Tight, id, spans[id]));
      ghost var t0, r0 := spans, refusals;
      var p, n := spans[id].start, spans[id].length;
      MergeSide(id, p - 1);
      ghost var t1, r1 := spans, refusals;
      MergeSide(id, p + n);
      BothSides(t0, t1, spans, id, aggressive && r1 == r0, aggressive && refusals == r1);
      NormalsAround(t0, t1, spans, id, aggressive && r1 == r0, aggressive && refusals == r1);
      SwallowedTrans(t0, t1, spans, id);
      SwallowedNone(t0, t1, id, Normal, p + n);
      SwallowedNone(t1, spans, id, spans[id].location, spans[id].start);
    }

    lemma InvTiled(sl: Slack)
      requires Inv(sl)
      ensures Tiled(spans)
    {
    }

    // -------------------------------------------------------------- releasing memory

    lemma Signs()
      requires Valid()
      ensures 0 <= freePages && 0 <= unmappedPages && freePages + unmappedPages <= systemPages <= taken
      ensures freePages == 0 <==> forall i :: i in spans ==> spans[i].location != Normal
    {
      hide Tagged, Filed, Coalesced;
      PagesZero(spans, Normal);
      PagesZero(spans, Returned);
      PagesZero(spans, InUse);
    }

    lemma NormalIsLonely(id: SpanId)
      requires Valid() && id in spans && spans[id].location == Normal
      ensures var s := spans[id].(location := Returned, sizeclass := 0);
        && Lonely(spans[id := s], id)
        && Swallowed(spans, spans[id := s], id)
        && 1 <= s.length && Live(spans) - {id} == Live(spans)
        && !Exposed(spans, id)
    {
      hide Tagged, Filed, Pages;
    }

    method ReleaseSpan(id: SpanId) returns (n: int)
      requires Valid() && id in spans && spans[id].location == Normal
      modifies `spans, `pagemap, `normal, `returned, `freePages, `unmappedPages, `committedPages, `refusals
      ensures Valid() && Live(spans) == Live(old(spans)) && Absorbed(old(spans), spans)
      ensures n == 0 || n == old(spans[id].length) >= 1
      ensures freePages == old(freePages) - n && unmappedPages == old(unmappedPages) + n
      ensures refusals == old(refusals) + (if n == 0 then 1 else 0)
      ensures n == 0 ==> spans == old(spans) && normal == old(normal)
      ensures Packed(spans) <==> Packed(old(spans))
      ensures n > 0 ==> NormalsBut(old(spans), spans, id)
      ensures StayReturned(old(spans), spans) && NormalsFrom(old(spans), spans)
    {
      hide Tiled, Tagged, Filed, Pages, Coalesced, Swallowed, NoneEndsAt, NoneStartsAt, Live, Absorbed, Exposed, StayReturned,
        SameNormals, NoneBeside, NormalsBut, NormalsFrom;
      StaySelf(spans);
      ghost var t := spans;
      NormalIsLonely(id);
      HoleNormal(t, id);
      ExposedRelabel(t, id, t[id].(location := Returned, sizeclass := 0));
      var ok := DecommitSpan(id);
      if ok {
        ghost var sl := Slack({}, 0, 0, spans[id].length);
        RemoveFromFreeList(id, sl);
        n := spans[id].length;
        Relabel(id, Returned, n);
        ghost var t0 := spans;
        LonelyNone(t0, id);
        MergeIntoFreeList(id);
        ReleasedFacts(t, spans, id);
      } else {
        n := 0;
        AbsorbedSelf(spans);
      }
    }

    /** The span the round robin takes from list `releaseIndex`: the oldest of a
        small list, the smallest of the large set. */
    method NextToRelease() returns (r: Option<SpanId>)
      requires Valid() && releaseIndex <= MaxPages
      ensures r.None? <==> BinEmpty(normal, releaseIndex)
      ensures r.Some? ==> r.value in spans && spans[r.value].location == Normal
      ensures r.Some? ==> OldestOf(spans, normal, releaseIndex, r.value)
    {
      hide Tagged, Coalesced, Pages;
      if releaseIndex == MaxPages {
        assert forall k :: k in normal.large ==> Belongs(spans, {}, Normal, k);
        r := UpperBound(spans, normal.large, 0);
        if r.Some? { assert Belongs(spans, {}, Normal, r.value); }
      } else {
        var q := normal.small[releaseIndex];
        if q == [] {
          r := None;
        } else {
          r := Some(q[|q| - 1]);
          assert Belongs(spans, {}, Normal, q[|q| - 1]);
        }
      }
    }

    /** Where a round starts. */
    function RoundStart(): int
      reads this`releaseIndex
    {
      if releaseIndex > MaxPages then 0 else releaseIndex
    }

    /** Releases the span whose turn it is, if its list has any. */
    method ReleaseNext() returns (s: Option<SpanId>, n: int)
      requires Valid()
      modifies `spans, `pagemap, `normal, `returned, `freePages, `unmappedPages, `committedPages, `refusals, `releaseIndex
      ensures releaseIndex == Spot(old(releaseIndex), 0)
      ensures s.None? <==> BinEmpty(old(normal), releaseIndex)
      ensures s.None? ==> n == 0 && spans == old(spans) && normal == old(normal) && refusals == old(refusals)
      ensures s.Some? ==> s.value in old(spans) && old(spans)[s.value].location == Normal
      ensures s.Some? ==> OldestOf(old(spans), old(normal), releaseIndex, s.value)
      ensures s.Some? ==> if n == 0 then refusals == old(refusals) + 1
                          else n == old(spans)[s.value].length && refusals == old(refusals)
      ensures Valid() && Live(spans) == Live(old(spans)) && Absorbed(old(spans), spans)
      ensures 0 <= n && freePages == old(freePages) - n && unmappedPages == old(unmappedPages) + n
      ensures Packed(spans) <==> Packed(old(spans))
      ensures StayReturned(old(spans), spans) && NormalsFrom(old(spans), spans)
    {
      hide Tiled, Tagged, Filed, Pages, Coalesced, Live, Absorbed, Spot, BinEmpty, Total, Packed, StayReturned, NormalsFrom,
        NeededLast, OldestOf, Inv;
      AbsorbedSelf(spans);
      StaySelf(spans);
      IndexRange();
      SpotStep(releaseIndex, 0, releaseIndex);
      if releaseIndex > MaxPages {
        SetIndex(0);
      }
      s := NextToRelease();
      n := 0;
      if s.Some? {
        n := ReleaseSpan(s.value);
      }
    }

    /** One round over all the lists, from where the last one ended, that takes the oldest span of each until enough
        is released or the system refuses.  A round that starts with free pages releases some or is refused. */
    method ReleaseRound(want: int) returns (released: int, refused: bool, ghost first: SpanId, ghost skipped: int)
      requires Valid() && want > 0 && freePages > 0
      modifies `spans, `pagemap, `normal, `returned, `freePages, `unmappedPages, `committedPages, `refusals, `releaseIndex
      ensures Valid() && Live(spans) == Live(old(spans)) && Absorbed(old(spans), spans)
      ensures 0 <= released
      ensures freePages == old(freePages) - released && unmappedPages == old(unmappedPages) + released
      ensures refusals == old(refusals) + (if refused then 1 else 0)
      ensures refused || released > 0
      ensures Packed(spans) <==> Packed(old(spans))
      ensures StayReturned(old(spans), spans) && NormalsFrom(old(spans), spans)
      ensures released >= want ==> !refused && NeededLast(old(spans), released, want)
      ensures 0 <= skipped <= MaxPages && forall j :: 0 <= j < skipped ==> BinEmpty(old(normal), Spot(old(RoundStart()), j))
      ensures first in old(spans) && OldestOf(old(spans), old(normal), Spot(old(RoundStart()), skipped), first)
      ensures released > 0 ==> released >= old(spans)[first].length
      ensures released > 0 && old(spans)[first].length >= want ==>
                released == old(spans)[first].length && Spot(releaseIndex, 0) == Spot(old(RoundStart()), skipped + 1)
    {
      hide Tiled, Tagged, Filed, Pages, Coalesced, Live, Absorbed, Spot, BinEmpty, Total, Packed, StayReturned, NormalsFrom,
        NeededLast, OldestOf, Inv;
      AbsorbedSelf(spans);
      StaySelf(spans);
      IndexRange();
      released, refused := 0, false;
      ghost var from := RoundStart();
      SpotStep(releaseIndex, 0, releaseIndex);
      SpotStep(from, 0, from);
      var i := 0;
      skipped, first := 0, SpanAt(0);
      while i < MaxPages + 1 && released < want
        invariant Valid() && Live(spans) == Live(old(spans)) && Absorbed(old(spans), spans)
        invariant 0 <= released && freePages == old(freePages) - released && unmappedPages == old(unmappedPages) + released
        invariant refusals == old(refusals) && (Packed(spans) <==> Packed(old(spans)))
        invariant StayReturned(old(spans), spans) && NormalsFrom(old(spans), spans)
        invariant 0 <= i <= MaxPages + 1
        invariant Spot(releaseIndex, 0) == Spot(from, i)
        invariant released == 0 ==> skipped == i && spans == old(spans) && normal == old(normal)
        invariant 0 <= skipped <= i && forall j :: 0 <= j < skipped ==> BinEmpty(old(normal), Spot(from, j))
        invariant released > 0 ==> skipped < i && first in old(spans) && OldestOf(old(spans), old(normal), Spot(from, skipped), first)
        invariant released > 0 ==> released >= old(spans)[first].length
        invariant released > 0 && old(spans)[first].length >= want ==> released == old(spans)[first].length && i == skipped + 1
        invariant released >= want ==> NeededLast(old(spans), released, want)
      {
        ghost var t := spans;
        IndexRange();
        SpotStep(from, i, releaseIndex);
        SpotStep(releaseIndex, 0, releaseIndex);
        var s, n := ReleaseNext();
        if s.Some? {
          if released == 0 { first := s.value; }
          AbsorbedTrans(old(spans), t, spans);
          StayTrans(old(spans), t, spans);
          if n == 0 {
            return released, true, first, skipped;
          }
          NeededFrom(old(spans), t, s.value, released + n, want);
          SameAsOld(old(spans), t, s.value);
          released := released + n;
        } else if released == 0 {
          skipped := skipped + 1;
        }
        i := i + 1;
        SetIndex(releaseIndex + 1);
      }
      if released == 0 {
        RoundEmpty(from);
        Signs();
      }
    }

    lemma IndexRange()
      requires Valid()
      ensures 0 <= releaseIndex <= MaxPages + 1
    {
    }

    method SetIndex(k: int)
      requires Valid() && 0 <= k <= MaxPages + 1
      modifies `releaseIndex
      ensures Valid() && releaseIndex == k
    {
      hide Tiled, Tagged, Filed, Pages, Coalesced;
      releaseIndex := k;
    }

    lemma RoundEmpty(from: int)
      requires Valid() && 0 <= from <= MaxPages && forall i :: 0 <= i <= MaxPages ==> BinEmpty(normal, Spot(from, i))
      ensures forall k :: k in spans ==> spans[k].location != Normal
    {
      hide Tiled, Tagged, Filed, Pages, Coalesced, BinEmpty, Spot;
      RoundCovers(spans, Normal, normal, from);
    }

    lemma SameAsOld(t: Table, u: Table, i: SpanId)
      requires NormalsFrom(t, u) && i in u && u[i].location == Normal
      ensures i in t && t[i] == u[i]
    {
    }

    method ReleaseAtLeastNPages(want: int) returns (released: int)
      requires Valid()
      modifies `spans, `pagemap, `normal, `returned, `freePages, `unmappedPages, `committedPages, `refusals, `releaseIndex
      ensures Valid() && Live(spans) == Live(old(spans)) && Absorbed(old(spans), spans)
      ensures 0 <= released
      ensures freePages == old(freePages) - released && unmappedPages == old(unmappedPages) + released
      ensures released >= want || freePages == 0 || refusals > old(refusals)
      ensures refusals >= old(refusals)
      ensures Packed(spans) <==> Packed(old(spans))
      ensures StayReturned(old(spans), spans) && NormalsFrom(old(spans), spans)
      ensures want <= 0 ==> released == 0 && spans == old(spans)
      ensures released >= want > 0 ==> NeededLast(old(spans), released, want)
    {
      hide Tiled, Tagged, Filed, Pages, Coalesced, Live, Absorbed, Inv, Packed, StayReturned, NormalsFrom, NeededLast, OldestOf, BinEmpty, Spot;
      released := 0;
      AbsorbedSelf(spans);
      StaySelf(spans);
      Signs();
      while released < want && freePages > 0
        invariant Valid() && Live(spans) == Live(old(spans)) && Absorbed(old(spans), spans)
        invariant 0 <= released && freePages == old(freePages) - released && unmappedPages == old(unmappedPages) + released
        invariant refusals == old(refusals) && freePages >= 0 && (Packed(spans) <==> Packed(old(spans)))
        invariant StayReturned(old(spans), spans) && NormalsFrom(old(spans), spans)
        invariant released >= want > 0 ==> NeededLast(old(spans), released, want)
        invariant want <= 0 ==> released == 0 && spans == old(spans)
        decreases freePages
      {
        ghost var t := spans;
        var n, refused;
        ghost var first, skipped;
        n, refused, first, skipped := ReleaseRound(want - released);
        AbsorbedTrans(old(spans), t, spans);
        StayTrans(old(spans), t, spans);
        NeededTrans(old(spans), t, n, released, want);
        released := released + n;
        Signs();
        if refused {
          return;
        }
      }
    }

    lemma NeededTrans(t: Table, u: Table, n: int, released: int, want: int)
      requires NormalsFrom(t, u)
      ensures NeededLast(u, n, want - released) ==> NeededLast(t, released + n, want)
    {
      if NeededLast(u, n, want - released) {
        var i :| i in u && u[i].location == Normal && n - u[i].length < want - released;
        NeededFrom(t, u, i, released + n, want);
      }
    }

    // -------------------------------------------------------------- heap limit

    /** Taking `n` more pages keeps the heap within its limit. */
    predicate LimitOk(n: int)
      reads this
    {
      limit == 0 || taken - unmappedPages + n <= limit
    }

    /** Pages taken from the system and not given back. */
    function Usage(): int
      reads this`taken, this`unmappedPages
    {
      taken - unmappedPages
    }

    /** The limit allows `n` more pages if all normal pages are released first. */
    predicate WithinReach(n: int)
      reads this`limit, this`taken, this`unmappedPages, this`freePages
    {
      limit == 0 || Usage() + n <= limit + freePages
    }

    method EnsureLimit(n: int, withRelease: bool) returns (ok: bool)
      requires Valid() && 0 <= n
      modifies `spans, `pagemap, `normal, `returned, `freePages, `unmappedPages, `committedPages, `refusals, `releaseIndex
      ensures Valid() && Live(spans) == Live(old(spans)) && Absorbed(old(spans), spans)
      ensures freePages + unmappedPages == old(freePages + unmappedPages) && freePages <= old(freePages)
      ensures ok <==> LimitOk(n)
      ensures !withRelease || old(LimitOk(n)) ==>
                spans == old(spans) && normal == old(normal) && returned == old(returned) && refusals == old(refusals)
      ensures withRelease && refusals == old(refusals) ==> (ok <==> old(WithinReach(n)))
      ensures withRelease && refusals == old(refusals) && !ok ==> freePages == 0
      ensures refusals >= old(refusals)
      ensures StayReturned(old(spans), spans) && NormalsFrom(old(spans), spans)
      ensures ok && !old(LimitOk(n)) ==>
                NeededLast(old(spans), unmappedPages - old(unmappedPages), old(taken - unmappedPages + n - limit))
    {
      hide Tiled, Tagged, Filed, Pages, Coalesced, Live, Absorbed, Inv, StayReturned, NormalsFrom, NeededLast;
      AbsorbedSelf(spans);
      StaySelf(spans);
      Signs();
      if limit == 0 {
        return true;
      }
      var takenPages := taken;
      assert takenPages >= unmappedPages;                // the subtraction cannot wrap
      takenPages := takenPages - unmappedPages;
      if takenPages + n > limit && withRelease {
        var released := ReleaseAtLeastNPages(takenPages + n - limit);
        Signs();
        assert 0 <= released <= takenPages;              // nor can this one
        takenPages := takenPages - released;
      }
      ok := takenPages + n <= limit;
    }

    // -------------------------------------------------------------- allocation

    /** Any descriptor address not in use; addresses of deleted descriptors come back. */
    method NewSpan() returns (id: SpanId)
      ensures id !in spans
    {
      ghost var j := FreshId(spans.Keys);
      id :| id !in spans;
    }

    method CarveOff(id: SpanId, n: int)
      requires id in spans && spans[id].Free() && 1 <= n < spans[id].length
      requires Inv(Hold(Tight, id, spans[id]))
      requires spans[id].location == Normal || !wasAggressive ==> Coalesced(spans, {}, spans[id].location)
      modifies `spans, `pagemap, `normal, `returned, `freePages, `unmappedPages
      ensures Inv(Slack({}, 0, 0, Weight(old(spans[id]), Returned) - Weight(old(spans[id]).(length := old(spans[id].length) - n), Returned)))
      ensures Allocated(old(spans), spans, id, n) && spans[id].start == old(spans[id].start)
      ensures CutOff(old(spans), spans, id, n)
      ensures freePages + unmappedPages == old(freePages + unmappedPages) + old(spans[id].length) - n
      ensures unmappedPages == old(unmappedPages) + (if old(spans[id].location) == Returned then old(spans[id].length) - n else 0)
    {
      hide Tiled, Tagged, Filed, Pages, Coalesced, NoneEndsAt, NoneStartsAt, Allocated;
      ghost var t, pm := spans, pagemap;
      var s := spans[id];
      var nid := NewSpan();
      spans := spans[id := s.(length := n, location := InUse)][nid := Span(s.start + n, s.length - n, s.location, 0)];
      pagemap := pagemap[s.start + n := nid][s.End() - 1 := nid][s.start + n - 1 := id];
      assert spans == CutAt(t, id, n, nid, InUse, s.location);
      NoClass(t, id);
      CutTiled(t, id, n, nid, InUse, s.location);
      CutTagged(t, pm, id, n, nid, InUse, s.location);
      CutPages(t, id, n, nid, InUse, s.location, InUse);
      CutPages(t, id, n, nid, InUse, s.location, Normal);
      CutPages(t, id, n, nid, InUse, s.location, Returned);
      assert Tight.hole + {id} == {id} && Tight.hole + {nid} == {nid};
      CarveBooks(t, id, n, nid, Normal, normal);
      CarveBooks(t, id, n, nid, Returned, returned);
      CarveRest(t, id, n, nid);
      CarveAllocates(t, id, n, nid);
      PrependToFreeList(nid, Slack({}, 0, 0, Weight(s, Returned) - Weight(spans[nid], Returned)));
    }

    method Carve(id: SpanId, n: int)
      requires Valid() && id in spans && spans[id].Free() && 1 <= n <= spans[id].length
      modifies `spans, `pagemap, `normal, `returned, `freePages, `unmappedPages, `committedPages
      ensures Valid() && Allocated(old(spans), spans, id, n) && spans[id].start == old(spans[id].start)
      ensures CutOff(old(spans), spans, id, n)
      ensures freePages + unmappedPages == old(freePages + unmappedPages) - n
      ensures unmappedPages == old(unmappedPages) - (if old(spans[id].location) == Returned then n else 0)
    {
      hide Tiled, Tagged, Filed, Pages, Coalesced, Allocated;
      var oldLocation := spans[id].location;
      assert Tight.hole + {id} == {id};
      RemoveFromFreeList(id, Tight);
      if n < spans[id].length {
        CarveOff(id, n);
      } else {
        ghost var nid := FreshId(spans.Keys);
        NoClass(spans, id);
        MoveTiled(spans, pagemap, id, spans[id].(location := InUse));
        CarveWhole(spans, id, InUse, normal);
        CarveWhole(spans, id, Normal, normal);
        CarveWhole(spans, id, Returned, returned);
        CarveAllocates(spans, id, n, nid);
        spans := spans[id := spans[id].(location := InUse)];
      }
      if oldLocation == Returned {
        committedPages := committedPages + n;
      }
    }

    /** The best large fit, and whether it is on the returned side. */
    method BestLarge(n: int) returns (best: Option<SpanId>)
      requires Valid()
      ensures best.None? <==> !LargeFits(spans, n)
      ensures best.Some? ==> best.value in spans && BestFit(spans, MaxPages, n, best.value)
    {
      hide Tiled, Tagged, Filed, Pages, Coalesced, NoBetter, BestFit, LargeFits, Candidate;
      LargeKnown(spans, Normal, normal);
      LargeKnown(spans, Returned, returned);
      var bestNormal := UpperBound(spans, normal.large, n);
      var place := UpperBound(spans, returned.large, n);
      PickLarge(spans, normal, returned, n, bestNormal, place);
      best := bestNormal;
      if place.Some? && (bestNormal.None? || spans[place.value].length < spans[bestNormal.value].length) {
        best := place;
      }
      if best.Some? { BestFitFits(spans, n, best.value); }
    }

    method AllocLarge(n: int) returns (r: Option<SpanId>)
      requires Valid() && n >= 1
      modifies `spans, `pagemap, `normal, `returned, `freePages, `unmappedPages, `committedPages, `refusals, `releaseIndex
      ensures Valid() && refusals >= old(refusals)
      ensures r.None? ==> Live(spans) == Live(old(spans))
      ensures r.Some? ==> Allocated(old(spans), spans, r.value, n)
      ensures freePages + unmappedPages == old(freePages + unmappedPages) - (if r.Some? then n else 0)
      ensures old(LimitOk(n)) ==> (r.Some? <==> LargeFits(old(spans), n)) && refusals == old(refusals)
      ensures old(LimitOk(n)) && r.None? ==> spans == old(spans) && LimitOk(n)
      ensures old(LimitOk(n)) && r.Some? ==> r.value in old(spans) && BestFit(old(spans), MaxPages, n, r.value) && CutOff(old(spans), spans, r.value, n)
      ensures LargeFits(old(spans), n) && refusals == old(refusals) && old(WithinReach(n)) ==> r.Some?
      ensures Usage() <= old(Usage()) || (r.Some? && LimitOk(0))
      ensures r.Some? ==> LimitOk(0) || Usage() == old(Usage())
      decreases if LimitOk(n) then 0 else 1
    {
      hide Tiled, Tagged, Filed, Pages, Coalesced, LargeFits, Live, Absorbed, Inv, CutOff, StayReturned, NormalsFrom, NeededLast, Allocated;
      var best := BestLarge(n);
      if best.None? {
        return None;
      }
      if spans[best.value].location == Normal {
        Carve(best.value, n);
        return best;
      }
      var within := EnsureLimit(n, false);
      if within {
        Carve(best.value, n);
        return best;
      }
      ghost var t := spans;
      within := EnsureLimit(n, true);
      if within {
        if LargeFits(t, n) { LargeFitsAbsorbed(t, spans, n); }
        ghost var u := spans;
        r := AllocLarge(n);
        if r.Some? { AllocatedFrom(t, u, spans, r.value, n); }
        return;
      }
      return None;
    }

    /** A normal large span is never out of reach of the heap limit: releasing it is always enough. */
    lemma NormalWithinReach(n: int, i: SpanId)
      requires Valid() && i in spans && spans[i].location == Normal && spans[i].length >= n && spans[i].length > MaxPages
      requires taken - unmappedPages <= limit
      ensures LargeFits(spans, n) && taken - unmappedPages + n <= limit + freePages
    {
      hide Tagged, Filed, Coalesced;
      PagesAtLeast(spans, Normal, i);
      assert Candidate(spans, MaxPages, n, i);
    }

    /** One length of the search: the first normal span of `s` pages, else the first returned one if the limit
        allows it or can be met by releasing. */
    method TryLength(s: int, n: int) returns (r: Option<SpanId>)
      requires Valid() && 1 <= n <= s <= MaxPages
      modifies `spans, `pagemap, `normal, `returned, `freePages, `unmappedPages, `committedPages, `refusals, `releaseIndex
      ensures Valid() && refusals >= old(refusals)
      ensures r.None? ==> Live(spans) == Live(old(spans))
      ensures r.Some? ==> Allocated(old(spans), spans, r.value, n)
      ensures freePages + unmappedPages == old(freePages + unmappedPages) - (if r.Some? then n else 0)
      ensures old(LimitOk(n)) && r.None? ==> spans == old(spans) && NoneOfLength(spans, s) && LimitOk(n)
      ensures old(LimitOk(n)) && r.Some? ==> FirstOfLength(old(spans), s, r.value) && CutOff(old(spans), spans, r.value, n)
      ensures r.None? && refusals == old(refusals) && old(WithinReach(n)) && Fits(old(spans), s) ==> Fits(spans, s + 1) && WithinReach(n)
      ensures Usage() <= old(Usage()) || (r.Some? && LimitOk(0))
      ensures r.Some? ==> LimitOk(0) || Usage() == old(Usage())
      ensures r.None? && refusals == old(refusals) ==> Usage() == old(Usage()) || freePages == 0 || LimitOk(n)
    {
      hide Tiled, Tagged, Filed, Pages, Coalesced, Live, Absorbed, Fits, Inv, CutOff, StayReturned, NormalsFrom, NeededLast, Allocated;
      BothLists(s);
      if normal.small[s - 1] != [] {
        var id := normal.small[s - 1][0];
        Carve(id, n);
        return Some(id);
      }
      if returned.small[s - 1] != [] {
        ghost var t, head := spans, returned.small[s - 1][0];
        var ok := EnsureLimit(n, true);
        BothLists(s);
        if ok && returned.small[s - 1] != [] {
          var id := returned.small[s - 1][0];
          ghost var u := spans;
          Carve(id, n);
          AllocatedFrom(t, u, spans, id, n);
          return Some(id);
        }
        if returned.small[s - 1] == [] { MovedUp(t, spans, head, s); }
        return None;
      }
      if Fits(spans, s) { FitsLonger(spans, s); }
      return None;
    }

    lemma BothLists(s: int)
      requires Valid() && 1 <= s <= MaxPages
      ensures |normal.small| == |returned.small| == MaxPages
      ensures normal.small[s - 1] == [] ==> forall k :: k in spans && spans[k].location == Normal ==> spans[k].length != s
      ensures normal.small[s - 1] != [] ==>
                var i := normal.small[s - 1][0]; i in spans && spans[i].location == Normal && spans[i].length == s
      ensures returned.small[s - 1] == [] ==> forall k :: k in spans && spans[k].location == Returned ==> spans[k].length != s
      ensures returned.small[s - 1] != [] ==>
                var i := returned.small[s - 1][0]; i in spans && spans[i].location == Returned && spans[i].length == s
    {
      hide Tiled, Tagged, Filed, Pages, Coalesced;
      SmallLists(spans, Normal, normal, s);
      SmallLists(spans, Returned, returned, s);
    }

    method SearchFreeAndLargeLists(n: int) returns (r: Option<SpanId>)
      requires Valid() && n >= 1
      modifies `spans, `pagemap, `normal, `returned, `freePages, `unmappedPages, `committedPages, `refusals, `releaseIndex
      ensures Valid() && refusals >= old(refusals)
      ensures r.None? ==> Live(spans) == Live(old(spans))
      ensures r.Some? ==> Allocated(old(spans), spans, r.value, n)
      ensures freePages + unmappedPages == old(freePages + unmappedPages) - (if r.Some? then n else 0)
      ensures old(LimitOk(n)) ==> (r.Some? <==> Fits(old(spans), n)) && (r.None? ==> spans == old(spans) && LimitOk(n))
      ensures old(LimitOk(n)) && r.Some? ==> r.value in old(spans) && BestFit(old(spans), 0, n, r.value) && CutOff(old(spans), spans, r.value, n)
      ensures Fits(old(spans), n) && refusals == old(refusals) && old(WithinReach(n)) ==> r.Some?
      ensures Usage() <= old(Usage()) || (r.Some? && LimitOk(0))
      ensures r.Some? && refusals == old(refusals) ==> LimitOk(0) || Usage() == old(Usage())
    {
      hide Tiled, Tagged, Filed, Pages, Coalesced, Live, Absorbed, BestFit, LargeFits, Fits, NoneShorter, Inv, CutOff, Allocated,
        NoneOfLength, FirstOfLength;
      InvTiled(Tight);
      var s := n;
      assert NoneShorter(spans, n, n) by { NothingShorter(spans, n); }
      while s <= MaxPages
        invariant Valid() && n <= s && (n <= MaxPages ==> s <= MaxPages + 1)
        invariant refusals >= old(refusals) && Live(spans) == Live(old(spans))
        invariant freePages + unmappedPages == old(freePages + unmappedPages)
        invariant old(LimitOk(n)) ==> LimitOk(n) && spans == old(spans) && NoneShorter(spans, n, s)
        invariant Fits(old(spans), n) && refusals == old(refusals) && old(WithinReach(n)) ==> Fits(spans, s) && WithinReach(n)
        invariant Usage() <= old(Usage())
        invariant refusals == old(refusals) ==> Usage() == old(Usage()) || freePages == 0 || LimitOk(n)
      {
        ghost var t := spans;
        r := TryLength(s, n);
        Signs();
        if r.Some? {
          if old(LimitOk(n)) { FirstIsBest(t, n, s, r.value); }
          AllocatedFrom(old(spans), t, spans, r.value, n);
          return;
        }
        if old(LimitOk(n)) { LengthenSearch(spans, n, s); }
        s := s + 1;
      }
      ghost var t := spans;
      if old(LimitOk(n)) { LargeIsBest(spans, n); }
      if Fits(spans, s) { LongIsLarge(spans, s, n); }
      r := AllocLarge(n);
      Signs();
      if r.Some? { AllocatedFrom(old(spans), t, spans, r.value, n); }
    }

    // -------------------------------------------------------------- freeing

    /** A tiny release rate switches releasing off. */
    predicate Releasing()
      reads this`releaseRate
    {
      releaseRate > 0.000001
    }

    /** Counts freed pages; when enough have been freed, releases one span and sets how many pages to wait: a
        thousand for every page released, divided by the rate, within bounds. */
    method IncrementalScavenge(n: int)
      requires Valid()
      modifies `spans, `pagemap, `normal, `returned, `freePages, `unmappedPages, `committedPages, `refusals, `releaseIndex, `scavengeCounter
      ensures Valid() && Live(spans) == Live(old(spans)) && Absorbed(old(spans), spans)
      ensures freePages + unmappedPages == old(freePages + unmappedPages) && unmappedPages >= old(unmappedPages)
      ensures scavengeCounter >= 0
      ensures refusals >= old(refusals) && (Packed(spans) <==> Packed(old(spans)))
      ensures old(scavengeCounter) >= n || !Releasing() ==> spans == old(spans) && unmappedPages == old(unmappedPages) && refusals == old(refusals)
      ensures old(scavengeCounter) >= n ==> scavengeCounter == old(scavengeCounter) - n
      ensures old(scavengeCounter) < n && unmappedPages == old(unmappedPages) ==> scavengeCounter == DefaultReleaseDelay
      ensures old(scavengeCounter) < n && Releasing() && old(freePages) > 0 && refusals == old(refusals) ==> unmappedPages > old(unmappedPages)
      ensures unmappedPages > old(unmappedPages) ==>
                && NeededLast(old(spans), unmappedPages - old(unmappedPages), 1)
                && Waits(scavengeCounter, releaseRate, unmappedPages - old(unmappedPages))
    {
      hide Tiled, Tagged, Filed, Pages, Coalesced, Live, Absorbed, Total, Packed, NeededLast, StayReturned, NormalsFrom, Inv, Waits;
      AbsorbedSelf(spans);
      Signs();
      if scavengeCounter - n >= 0 {
        SetCounter(scavengeCounter - n);
        return;
      }
      if !Releasing() {
        SetCounter(DefaultReleaseDelay);
        return;
      }
      var released := ReleaseAtLeastNPages(1);
      if released == 0 {
        SetCounter(DefaultReleaseDelay);
      } else {
        var wait := 1000.0 / releaseRate * released as real;
        var counter := if wait > MaxReleaseDelay as real then MaxReleaseDelay else wait.Floor;
        Waited(releaseRate, released, counter);
        SetCounter(counter);
        assert released == unmappedPages - old(unmappedPages);
      }
    }

    method SetCounter(k: int)
      requires Valid()
      modifies `scavengeCounter
      ensures Valid() && scavengeCounter == k
    {
      hide Tiled, Tagged, Filed, Pages, Coalesced;
      scavengeCounter := k;
    }

    /** Takes a span out of use; it is then on no list. */
    method Retire(id: SpanId)
      requires Valid() && id in spans && spans[id].location == InUse
      modifies `spans
      ensures id in spans && spans == old(spans)[id := old(spans[id]).(location := Normal, sizeclass := 0)]
      ensures Inv(Hold(Tight, id, spans[id])) && spans[id].length >= 1
      ensures Live(spans) == Live(old(spans)) - {id} && Absorbed(old(spans), spans)
    {
      hide Tiled, Tagged, Filed, Pages, Coalesced;
      ghost var t := spans;
      assert Tight.hole + {id} == {id};
      spans := spans[id := spans[id].(location := Normal, sizeclass := 0)];
      NoClass(t, id);
      MoveTiled(t, pagemap, id, spans[id]);
      InUseBooks(t, spans, {id}, Normal, normal);
      InUseBooks(t, spans, {id}, Returned, returned);
      PagesUpdate(t, InUse, id, spans[id]);
      PagesUpdate(t, Normal, id, spans[id]);
      PagesUpdate(t, Returned, id, spans[id]);
      AbsorbedSelf(t);
    }

    method DeleteLocked(id: SpanId)
      requires Valid() && id in spans && spans[id].location == InUse
      modifies `spans, `pagemap, `normal, `returned, `freePages, `unmappedPages, `committedPages, `refusals, `releaseIndex, `scavengeCounter
      ensures Valid() && refusals >= old(refusals) && Live(spans) == Live(old(spans)) - {id}
      ensures Absorbed(old(spans), spans) && Engulfed(old(spans[id]), spans)
      ensures freePages + unmappedPages == old(freePages + unmappedPages) + old(spans[id].length)
      ensures old(scavengeCounter >= spans[id].length) ==>
                && scavengeCounter == old(scavengeCounter - spans[id].length)
                && (!aggressive ==> unmappedPages == old(unmappedPages))
      ensures old(scavengeCounter < spans[id].length) && !Releasing() ==> scavengeCounter == DefaultReleaseDelay
      ensures old(scavengeCounter < spans[id].length) && Releasing() && refusals == old(refusals) ==> unmappedPages > old(unmappedPages)
      ensures Packed(old(spans)) && (!aggressive || refusals == old(refusals)) ==>
                (Packed(spans) <==> !(aggressive && Exposed(old(spans), id)))
      ensures Packed(old(spans)) && !Exposed(old(spans), id) ==> Packed(spans)
      ensures !Packed(old(spans)) ==> !Packed(spans)
      ensures !aggressive && !Releasing() && NoneBeside(old(spans), id, Normal) ==>
                spans == old(spans)[id := old(spans[id]).(location := Normal, sizeclass := 0)]
    {
      hide Tiled, Tagged, Filed, Pages, Coalesced, Live, Absorbed, Swallowed, Engulfed, Inv, Exposed, NoneBeside;
      NoneBesideRelabel(spans, id, spans[id].(location := Normal, sizeclass := 0), Normal);
      ghost var t := spans;
      var n := spans[id].length;
      Signs();
      HoleNormal(t, id);
      ExposedRelabel(t, id, t[id].(location := Normal, sizeclass := 0));
      Retire(id);
      ghost var t1 := spans;
      MergeIntoFreeList(id);
      SwallowedFacts(t1, spans, id);
      ghost var t2 := spans;
      IncrementalScavenge(n);
      AbsorbedTrans(t1, t2, spans);
      AbsorbedTrans(t, t1, spans);
      FreedEngulfed(t1, spans, id, t[id]);
    }

    // -------------------------------------------------------------- growing

    /** The system gives a region of at least `ask` pages that overlaps no span, or nothing. */
    method SystemAlloc(ask: int) returns (r: Option<(PageId, int)>)
      requires Valid() && ask >= 1
      modifies `taken, `denials
      ensures Valid() && denials == old(denials) + (if r.Some? then 0 else 1)
      ensures taken == old(taken) + (if r.Some? then r.value.1 else 0)
      ensures r.Some? ==> r.value.0 >= 1 && r.value.1 >= ask && r.value.0 + r.value.1 <= PageLimit
      ensures r.Some? ==> forall k :: k in spans ==> Apart(spans[k], Span(r.value.0, r.value.1, InUse, 0))
    {
      hide Tiled, Tagged, Filed, Pages, Coalesced;
      var p: int, n: int, given: bool := *, *, *;
      if given && p >= 1 && n >= ask && p + n <= PageLimit
         && forall k | k in spans :: Apart(spans[k], Span(p, n, InUse, 0)) {
        taken := taken + n;
        return Some((p, n));
      }
      denials := denials + 1;
      return None;
    }

    /** Puts a new region into the table as a span in use, and charges it. */
    method AdoptRegion(p: PageId, n: int) returns (id: SpanId)
      requires Valid() && p >= 1 && n >= 1 && p + n <= PageLimit && systemPages + n <= taken
      requires forall k :: k in spans ==> Apart(spans[k], Span(p, n, InUse, 0))
      modifies `spans, `pagemap, `systemPages, `committedPages
      ensures Valid() && id in spans && spans[id] == Span(p, n, InUse, 0) && systemPages == old(systemPages) + n
      ensures Live(spans) - {id} == Live(old(spans)) && Absorbed(old(spans), spans)
    {
      hide Tiled, Tagged, Filed, Pages, Coalesced, Live, Absorbed;
      systemPages := systemPages + n;
      committedPages := committedPages + n;
      id := NewSpan();
      AddTiled(spans, pagemap, id, Span(p, n, InUse, 0));
      AddBooks(spans, id, Span(p, n, InUse, 0), Normal, normal);
      AddBooks(spans, id, Span(p, n, InUse, 0), Returned, returned);
      spans := spans[id := Span(p, n, InUse, 0)];
      pagemap := pagemap[p := id][p + n - 1 := id];
    }

    /** How often growing by `n` pages asks the system before it gives up. */
    function Requests(n: int): int { if n < MinSystemAlloc then 2 else 1 }

    /** The heap could not be grown by `n` pages: that is beyond the address space, the system met
        none of the requests, or the page map refused what it gave. */
    ghost predicate Denied(n: int, denials0: int, lost0: int)
      reads this`denials, this`lost
    {
      n > MaxValidPages || denials == denials0 + Requests(n) || lost > lost0
    }

    /** Asks for a large region first and, if that fails, for just `n` pages. */
    method AskSystem(n: int) returns (r: Option<(PageId, int)>)
      requires Valid() && n >= 1
      modifies `spans, `pagemap, `normal, `returned, `freePages, `unmappedPages, `committedPages, `refusals, `releaseIndex,
               `taken, `denials
      ensures Valid() && refusals >= old(refusals) && Live(spans) == Live(old(spans))
      ensures taken == old(taken) + (if r.Some? then r.value.1 else 0)
      ensures freePages + unmappedPages == old(freePages + unmappedPages)
      ensures !old(WithinReach(n)) ==> r.None? && denials == old(denials)
      ensures r.Some? ==> limit == 0 || taken - r.value.1 - unmappedPages + n <= limit
      ensures limit == 0 && r.Some? && denials == old(denials) ==> r.value.1 >= MinSystemAlloc
      ensures denials <= old(denials) + Requests(n) && (denials == old(denials) + Requests(n) ==> r.None?)
      ensures limit == 0 && r.None? ==> denials == old(denials) + Requests(n)
      ensures n < MinSystemAlloc && !old(WithinReach(MinSystemAlloc)) ==> denials <= old(denials) + 1
      ensures r.None? && refusals == old(refusals) && old(WithinReach(n)) ==> denials > old(denials)
      ensures r.Some? ==> r.value.0 >= 1 && r.value.1 >= n && r.value.0 + r.value.1 <= PageLimit
      ensures r.Some? ==> systemPages + r.value.1 <= taken
      ensures r.Some? ==> forall k :: k in spans ==> Apart(spans[k], Span(r.value.0, r.value.1, InUse, 0))
    {
      hide Tiled, Tagged, Filed, Pages, Coalesced, Live, Absorbed, Total, StayReturned, NormalsFrom, NeededLast, Inv, Apart;
      Signs();
      var ask := if n > MinSystemAlloc then n else MinSystemAlloc;
      r := None;
      var within := EnsureLimit(ask, true);
      Signs();
      if within {
        r := SystemAlloc(ask);
      }
      if r.None? && n < ask {
        within := EnsureLimit(n, true);
        Signs();
        if within {
          r := SystemAlloc(n);
        }
      }
    }

    method GrowHeap(n: int) returns (ok: bool)
      requires Valid() && n >= 1
      modifies `spans, `pagemap, `normal, `returned, `freePages, `unmappedPages, `committedPages, `refusals, `releaseIndex,
               `taken, `denials, `systemPages, `lost, `scavengeCounter
      ensures Valid() && refusals >= old(refusals) && Live(spans) == Live(old(spans))
      ensures ok ==> Fits(spans, n)
      ensures taken >= old(taken) && systemPages >= old(systemPages)
      ensures ok ==> freePages + unmappedPages == old(freePages + unmappedPages) + systemPages - old(systemPages)
      ensures limit == 0 && ok && denials == old(denials) ==> systemPages >= old(systemPages) + MinSystemAlloc
      ensures !old(WithinReach(n)) ==> !ok && taken == old(taken) && denials == old(denials)
      ensures Denied(n, old(denials), old(lost)) ==> !ok
      ensures limit == 0 && !ok ==> Denied(n, old(denials), old(lost))
      ensures !ok && refusals == old(refusals) && old(WithinReach(n)) ==> n > MaxValidPages || denials > old(denials) || lost > old(lost)
      ensures ok && taken - old(taken) == systemPages - old(systemPages) ==> WithinReach(n)
    {
      hide Tiled, Tagged, Filed, Pages, Coalesced, Live, Absorbed, Fits, Engulfed, Total, Inv, Packed, Exposed, NoneBeside;
      if n > MaxValidPages {
        return false;
      }
      var region := AskSystem(n);
      if region.None? {
        return false;
      }
      var p, got := region.value.0, region.value.1;
      var ensured := EnsurePages(got);
      if !ensured {
        return false;
      }
      var id := AdoptRegion(p, got);
      DeleteLocked(id);
      EngulfedFits(Span(p, got, InUse, 0), spans, n);
      return true;
    }

    /** The page map gets memory for new pages, or refuses; then the region is charged all the same. */
    method EnsurePages(got: int) returns (ok: bool)
      requires Valid() && got >= 1 && systemPages + got <= taken
      modifies `taken, `systemPages, `committedPages, `lost
      ensures Valid() && taken >= old(taken) && systemPages == old(systemPages) + (if ok then 0 else got)
      ensures lost == old(lost) + (if ok then 0 else got) && committedPages == old(committedPages) + (if ok then 0 else got)
    {
      hide Tiled, Tagged, Filed, Pages, Coalesced;
      var ensured: bool, metadata: nat := *, *;
      taken := taken + metadata;
      if !ensured {
        systemPages := systemPages + got;
        committedPages := committedPages + got;
        lost := lost + got;
      }
      return ensured;
    }

    /** Allocates `RoundUpSize(n0)` pages.  Without a heap limit it fails exactly when the heap
        could not be grown. */
    method NewLocked(n0: int) returns (r: Option<SpanId>)
      requires Valid() && 1 <= n0 < WordLimit
      modifies `spans, `pagemap, `normal, `returned, `freePages, `unmappedPages, `committedPages, `refusals, `releaseIndex,
               `taken, `denials, `systemPages, `lost, `scavengeCounter
      ensures Valid() && refusals >= old(refusals) && taken >= old(taken)
      ensures r.None? ==> Live(spans) == Live(old(spans))
      ensures r.Some? ==> Allocated(old(spans), spans, r.value, RoundUpSize(n0, smallestSpan))
      ensures var n := RoundUpSize(n0, smallestSpan); old(LimitOk(n) && Fits(spans, n)) ==>
                && r.Some? && BestFit(old(spans), 0, n, r.value) && CutOff(old(spans), spans, r.value, n)
                && taken == old(taken) && denials == old(denials)
      ensures var n := RoundUpSize(n0, smallestSpan); old(WithinReach(n) && Fits(spans, n)) && refusals == old(refusals) ==>
                r.Some? && taken == old(taken) && denials == old(denials)
      ensures var n := RoundUpSize(n0, smallestSpan); refusals == old(refusals) && old(Reunites(n)) ==>
                r.Some? && taken == old(taken) && denials == old(denials)
      ensures !old(WithinReach(RoundUpSize(n0, smallestSpan))) ==> taken == old(taken) && denials == old(denials)
      ensures Denied(RoundUpSize(n0, smallestSpan), old(denials), old(lost)) ==> r.None?
      ensures limit == 0 && r.None? ==> Denied(RoundUpSize(n0, smallestSpan), old(denials), old(lost))
      ensures r.None? && refusals == old(refusals) && old(WithinReach(RoundUpSize(n0, smallestSpan))) &&
              taken - old(taken) == systemPages - old(systemPages) ==>
                RoundUpSize(n0, smallestSpan) > MaxValidPages || denials > old(denials) || lost > old(lost)
    {
      hide Tiled, Tagged, Filed, Pages, Coalesced, Live, Absorbed, Fits, BestFit, Total, Inv, CutOff, StayReturned, NormalsFrom,
        NeededLast, Allocated, Reunites, RoundUpSize, Denied;
      UnitOk();
      var n := RoundUpSize(n0, smallestSpan);
      r := SearchTwice(n);
      if r.Some? {
        InReach(old(spans), r.value, n);
        return;
      }
      var grown := GrowHeap(n);
      if !grown {
        return;
      }
      ghost var u := spans;
      r := SearchFreeAndLargeLists(n);
      if r.Some? { AllocatedFrom(old(spans), u, spans, r.value, n); }
    }

    /** Searches; if nothing is found and the heap is crowded, gives every free page back, so that free spans join, and
        searches once more. */
    method SearchTwice(n: int) returns (r: Option<SpanId>)
      requires Valid() && n >= 1
      modifies `spans, `pagemap, `normal, `returned, `freePages, `unmappedPages, `committedPages, `refusals, `releaseIndex
      ensures Valid() && refusals >= old(refusals)
      ensures r.None? ==> Live(spans) == Live(old(spans))
      ensures r.Some? ==> Allocated(old(spans), spans, r.value, n)
      ensures freePages + unmappedPages == old(freePages + unmappedPages) - (if r.Some? then n else 0)
      ensures old(LimitOk(n) && Fits(spans, n)) ==>
                r.Some? && BestFit(old(spans), 0, n, r.value) && CutOff(old(spans), spans, r.value, n)
      ensures old(WithinReach(n) && Fits(spans, n)) && refusals == old(refusals) ==> r.Some?
      ensures refusals == old(refusals) && old(Reunites(n)) ==> r.Some?
      ensures old(LimitOk(n) && !Crowded(n)) && r.None? ==> spans == old(spans)
    {
      hide Tiled, Tagged, Filed, Pages, Coalesced, Live, Absorbed, Fits, BestFit, Total, Inv, CutOff, StayReturned, NormalsFrom,
        NeededLast, Allocated, Packed, FreeRun;
      Counted();
      r := SearchFreeAndLargeLists(n);
      if r.Some? {
        return;
      }
      Counted();
      ghost var t := spans;
      if Crowded(n) {
        Signs();
        var released := ReleaseAtLeastNPages(0x7fff_ffff);
        Signs();
        if Packed(spans) && freePages == 0 { RunsFit(t, n); }
        ghost var u := spans;
        r := SearchFreeAndLargeLists(n);
        if r.Some? { AllocatedFrom(old(spans), u, spans, r.value, n); }
      }
    }

    lemma Counted()
      requires Valid()
      ensures freePages == Pages(spans, Normal) && unmappedPages == Pages(spans, Returned)
    {
      hide Tiled, Tagged, Filed, Pages, Coalesced;
    }

    /** The heap is about to grow although a quarter of it is free, in pieces of both kinds; and a whole interval of growth
        has passed since this was last so. */
    predicate Crowded(n: int)
      reads this`freePages, this`unmappedPages, this`systemPages
    {
      && freePages != 0 && unmappedPages != 0 && 4 * (freePages + unmappedPages) >= systemPages
      && systemPages / ForcedCoalesceInterval != (systemPages + n) / ForcedCoalesceInterval
    }

    /** No free span has `n` pages, but somewhere `n` free pages lie in a row, and giving all free pages back to the
        system joins them. */
    ghost predicate Reunites(n: int)
      reads this
    {
      Crowded(n) && LimitOk(n) && freePages <= 0x7fff_ffff && Packed(spans) && exists p :: FreeRun(spans, p, n)
    }

    /** With nothing left that is not returned, and returned spans maximally joined, a row of free pages is in one span. */
    lemma RunsFit(t: Table, n: int)
      requires Valid() && Absorbed(t, spans) && n >= 1 && Packed(spans) && freePages == 0
      ensures (exists p :: FreeRun(t, p, n)) ==> Fits(spans, n)
    {
      hide Tagged, Filed, Pages, Coalesced, Live, Absorbed, Packed, FreeRun, Fits;
      Signs();
      if p :| FreeRun(t, p, n) {
        RunStays(t, spans, p, n);
        var i := RunInOne(spans, p, n);
        assert Fits(spans, n) by { LongFits(spans, i, p, n); }
      }
    }

    lemma InReach(t: Table, id: SpanId, n: int)
      requires Valid() && Allocated(t, spans, id, n)
      ensures !Denied(n, denials, lost)
    {
      hide Tiled, Tagged, Filed, Pages, Coalesced, Live, Inv;
      SpanInRange(id);
    }

    lemma UnitOk()
      requires Valid()
      ensures 1 <= smallestSpan <= PageLimit && WordLimit % smallestSpan == 0
    {
      hide Tiled, Tagged, Filed, Pages, Coalesced;
    }

    lemma SpanInRange(id: SpanId)
      requires Valid() && id in spans
      ensures 1 <= spans[id].length <= MaxValidPages && spans[id].start >= 1
    {
      hide Tagged, Filed, Pages, Coalesced;
    }

    /** Gives span `id` a size class and maps its inner pages to it as well. */
    method RegisterSizeClass(id: SpanId, sc: int)
      requires Valid() && id in spans && spans[id].location == InUse && spans[id].sizeclass == 0 && sc > 0
      modifies `spans, `pagemap
      ensures Valid()
      ensures spans == old(spans)[id := old(spans[id]).(sizeclass := sc)]
      ensures forall p :: spans[id].Covers(p) ==> MapsTo(pagemap, p, id)
    {
      hide Tiled, Tagged, Filed, Pages, Coalesced;
      ghost var t := spans;
      NoClass(spans, id);
      OwnTags(spans, pagemap, id);
      var s := spans[id];
      var i := 1;
      while i < s.length - 1
        invariant 1 <= i && spans == t
        invariant Tagged(spans, pagemap)
        invariant MapsTo(pagemap, s.start, id) && MapsTo(pagemap, s.End() - 1, id)
        invariant forall p :: s.start <= p < s.start + i && s.Covers(p) ==> MapsTo(pagemap, p, id)
      {
        TagInner(spans, pagemap, id, s.start + i);
        pagemap := pagemap[s.start + i := id];
        i := i + 1;
      }
      spans := spans[id := s.(sizeclass := sc)];
      ClassTagged(t, pagemap, id, sc);
      InUseBooks(t, spans, {}, Normal, normal);
      InUseBooks(t, spans, {}, Returned, returned);
      PagesUpdate(t, InUse, id, spans[id]);
      PagesUpdate(t, Normal, id, spans[id]);
      PagesUpdate(t, Returned, id, spans[id]);
    }

    method NewWithSizeClass(n: int, sc: int) returns (r: Option<SpanId>)
      requires Valid() && 1 <= n < WordLimit && sc >= 0
      modifies `spans, `pagemap, `normal, `returned, `freePages, `unmappedPages, `committedPages, `refusals, `releaseIndex,
               `taken, `denials, `systemPages, `lost, `scavengeCounter
      ensures Valid()
      ensures r.None? ==> Live(spans) == Live(old(spans))
      ensures r.Some? ==> r.value in spans && r.value !in Live(old(spans)) && Live(spans) == Live(old(spans))[r.value := spans[r.value]]
      ensures r.Some? ==> spans[r.value].location == InUse && spans[r.value].sizeclass == sc
      ensures r.Some? ==> spans[r.value].length == RoundUpSize(n, smallestSpan)
      ensures r.Some? && sc > 0 ==> forall p :: spans[r.value].Covers(p) ==> MapsTo(pagemap, p, r.value)
      ensures var m := RoundUpSize(n, smallestSpan); old(LimitOk(m) && Fits(spans, m)) ==>
                && r.Some? && r.value in old(spans) && BestFit(old(spans), 0, m, r.value)
                && spans[r.value].start == old(spans)[r.value].start && taken == old(taken) && denials == old(denials)
      ensures !old(WithinReach(RoundUpSize(n, smallestSpan))) ==> taken == old(taken) && denials == old(denials)
      ensures Denied(RoundUpSize(n, smallestSpan), old(denials), old(lost)) ==> r.None?
      ensures limit == 0 && r.None? ==> Denied(RoundUpSize(n, smallestSpan), old(denials), old(lost))
      ensures r.None? && refusals == old(refusals) && old(WithinReach(RoundUpSize(n, smallestSpan))) &&
              taken - old(taken) == systemPages - old(systemPages) ==>
                RoundUpSize(n, smallestSpan) > MaxValidPages || denials > old(denials) || lost > old(lost)
    {
      hide Tiled, Tagged, Filed, Pages, Coalesced, Inv, Live, BestFit, Fits, Reunites, RoundUpSize;
      UnitOk();
      r := NewLocked(n);
      if r.Some? && sc > 0 {
        ghost var t := spans;
        RegisterSizeClass(r.value, sc);
        LiveUpdate(t, r.value, spans[r.value]);
      }
    }

    method Split(id: SpanId, n: int) returns (rest: SpanId)
      requires Valid() && id in spans && 0 < n < spans[id].length
      requires spans[id].location == InUse && spans[id].sizeclass == 0
      modifies `spans, `pagemap
      ensures Valid() && rest !in old(spans) && rest != id
      ensures var s := old(spans[id]);
        spans == old(spans)[id := s.(length := n)][rest := Span(s.start + n, s.length - n, InUse, 0)]
    {
      hide Tiled, Tagged, Filed, Pages, Coalesced;
      ghost var t, pm := spans, pagemap;
      var s := spans[id];
      rest := NewSpan();
      spans := spans[id := s.(length := n)][rest := Span(s.start + n, s.length - n, InUse, 0)];
      pagemap := pagemap[s.start + n := rest][s.End() - 1 := rest][s.start + n - 1 := id];
      CutTiled(t, id, n, rest, InUse, InUse);
      CutTagged(t, pm, id, n, rest, InUse, InUse);
      CutPages(t, id, n, rest, InUse, InUse, InUse);
      CutPages(t, id, n, rest, InUse, InUse, Normal);
      CutPages(t, id, n, rest, InUse, InUse, Returned);
      InUseBooks(t, spans, {}, Normal, normal);
      InUseBooks(t, spans, {}, Returned, returned);
    }

    /** Frees the first `skip` pages of span `id`; the rest has its own descriptor. */
    method TrimFront(id: SpanId, skip: int) returns (rest: SpanId)
      requires Valid() && id in spans && 0 < skip < spans[id].length
      requires spans[id].location == InUse && spans[id].sizeclass == 0
      modifies `spans, `pagemap, `normal, `returned, `freePages, `unmappedPages, `committedPages, `refusals, `releaseIndex, `scavengeCounter
      ensures Valid() && rest in spans && rest !in Live(old(spans)) && rest != id
      ensures var s := old(spans[id]); spans[rest] == Span(s.start + skip, s.length - skip, InUse, 0)
      ensures Live(spans) == Live(old(spans))[rest := spans[rest]] - {id}
    {
      hide Tiled, Tagged, Filed, Pages, Coalesced, Inv, Live, Absorbed, Engulfed;
      ghost var t := spans;
      rest := Split(id, skip);
      LiveKeys(t, rest);
      LiveUpdate(t, id, spans[id]);
      LiveUpdate(t[id := spans[id]], rest, spans[rest]);
      ghost var u := spans;
      DeleteLocked(id);
      LiveKeys(spans, rest);
      LiveKeys(u, rest);
      assert Live(t)[id := u[id]][rest := u[rest]] - {id} == Live(t)[rest := u[rest]] - {id};
    }

    /** Frees what span `id` has beyond `n` pages. */
    method TrimBack(id: SpanId, n: int)
      requires Valid() && id in spans && 0 < n < spans[id].length
      requires spans[id].location == InUse && spans[id].sizeclass == 0
      modifies `spans, `pagemap, `normal, `returned, `freePages, `unmappedPages, `committedPages, `refusals, `releaseIndex, `scavengeCounter
      ensures Valid() && id in spans && spans[id] == old(spans[id]).(length := n)
      ensures Live(spans) == Live(old(spans))[id := spans[id]]
    {
      hide Tiled, Tagged, Filed, Pages, Coalesced, Inv, Live, Absorbed, Engulfed;
      ghost var t := spans;
      var rest := Split(id, n);
      LiveKeys(t, rest);
      LiveUpdate(t, id, spans[id]);
      LiveUpdate(t[id := spans[id]], rest, spans[rest]);
      ghost var u := spans;
      DeleteLocked(rest);
      LiveKeys(spans, id);
      LiveKeys(u, id);
      assert Live(t)[id := u[id]][rest := u[rest]] - {rest} == Live(t)[id := u[id]];
    }

    /** Cuts an aligned run of `n` pages out of a span that is `align` pages longer, and frees the ends. */
    method AlignSpan(id0: SpanId, n: int, align: int) returns (id: SpanId)
      requires Valid() && id0 in spans && 1 <= n && 1 <= align && n + align <= spans[id0].length
      requires spans[id0].location == InUse && spans[id0].sizeclass == 0
      modifies `spans, `pagemap, `normal, `returned, `freePages, `unmappedPages, `committedPages, `refusals, `releaseIndex, `scavengeCounter
      ensures Valid() && id in spans && (id == id0 || id !in Live(old(spans)))
      ensures spans[id].location == InUse && spans[id].sizeclass == 0 && spans[id].length == n
      ensures spans[id].start % align == 0 && old(spans)[id0].start <= spans[id].start < old(spans)[id0].start + align
      ensures Live(spans) == (Live(old(spans)) - {id0})[id := spans[id]]
    {
      hide Tiled, Tagged, Filed, Pages, Coalesced, Inv, Live;
      ghost var t := spans;
      SpanInRange(id0);
      LiveKeys(t, id0);
      id := id0;
      var skip := SkipToAligned(spans[id].start, align);
      assert Live(t) == (Live(t) - {id0})[id0 := t[id0]];
      if skip > 0 {
        id := TrimFront(id0, skip);
        assert Live(t)[id := spans[id]] - {id0} == (Live(t) - {id0})[id := spans[id]];
      }
      if spans[id].length > n {
        ghost var s := spans[id];
        TrimBack(id, n);
        assert (Live(t) - {id0})[id := s][id := spans[id]] == (Live(t) - {id0})[id := spans[id]];
      }
    }

    /** `p` is the first multiple of `align` in a best fit for `n` pages. */
    ghost predicate FirstAligned(t: Table, n: int, p: PageId, align: int)
      requires align >= 1
    {
      p % align == 0 && exists i :: BestFit(t, 0, n, i) && t[i].start <= p < t[i].start + align
    }

    method NewAligned(n0: int, align: int) returns (r: Option<SpanId>)
      requires Valid() && 1 <= n0 < WordLimit && 1 <= align < WordLimit
      modifies `spans, `pagemap, `normal, `returned, `freePages, `unmappedPages, `committedPages, `refusals, `releaseIndex,
               `taken, `denials, `systemPages, `lost, `scavengeCounter
      ensures Valid()
      ensures r.None? ==> Live(spans) == Live(old(spans))
      ensures r.Some? ==> Allocated(old(spans), spans, r.value, RoundUpSize(n0, smallestSpan))
      ensures r.Some? ==> spans[r.value].start % align == 0
      ensures var alloc := RoundUpSize(n0, smallestSpan) + align;
        if alloc >= WordLimit then r.None? else
          && (Denied(RoundUpSize(alloc, smallestSpan), old(denials), old(lost)) ==> r.None?)
          && (limit == 0 && r.None? ==> Denied(RoundUpSize(alloc, smallestSpan), old(denials), old(lost)))
          && (old(LimitOk(RoundUpSize(alloc, smallestSpan)) && Fits(spans, RoundUpSize(alloc, smallestSpan))) ==>
                r.Some? && taken == old(taken) && denials == old(denials) &&
                FirstAligned(old(spans), RoundUpSize(alloc, smallestSpan), spans[r.value].start, align))
    {
      hide Tiled, Tagged, Filed, Pages, Coalesced, Inv, Live, RoundUpSize, BestFit, Fits, Reunites;
      UnitOk();
      var n := RoundUpSize(n0, smallestSpan);
      var alloc := n + align;
      if alloc >= WordLimit {
        r := NewWithSizeClass(WordLimit - 1, 0);
        assert r.None?;                              // the size asked for cannot be met
        return;
      }
      r := NewLocked(alloc);
      if r.Some? {
        ghost var s := spans[r.value];
        SpanInRange(r.value);
        var id := AlignSpan(r.value, n, align);
        assert Live(old(spans))[r.value := s] - {r.value} == Live(old(spans));
        r := Some(id);
      }
    }

    /** Three spans in use, each ending where the next starts. */
    ghost predicate InRow(t: Table, a: SpanId, b: SpanId, c: SpanId) {
      && Beside(t, a, b, true) && Beside(t, b, c, true) && a != c
      && t[a].location == InUse && t[b].location == InUse && t[c].location == InUse
    }

    /** All free spans are returned ones, and one ends where span `b` starts. */
    ghost predicate OnlyReturned(t: Table, b: SpanId) {
      && (forall i :: i in t ==> t[i].location != Normal)
      && exists k :: Beside(t, k, b, true) && t[k].Free()
    }

    /** Frees the first of three spans in a row and releases all free pages. */
    method FreeFirst(a: SpanId, b: SpanId, c: SpanId)
      requires Valid() && InRow(spans, a, b, c)
      modifies `spans, `pagemap, `normal, `returned, `freePages, `unmappedPages, `committedPages, `refusals, `releaseIndex, `scavengeCounter
      ensures Valid() && refusals >= old(refusals)
      ensures Beside(spans, b, c, true) && spans[b].location == InUse && spans[c].location == InUse
      ensures refusals == old(refusals) ==> OnlyReturned(spans, b)
    {
      hide Exposed, Packed, Live, Tiled, Tagged, Filed, Pages, Coalesced, Absorbed, Engulfed, NoneBeside, Inv;
      ghost var t := spans;
      LiveKeys(t, b);
      LiveKeys(t, c);
      SpanInRange(a);
      DeleteLocked(a);
      ghost var t1 := spans;
      Signs();
      var released := ReleaseAtLeastNPages(freePages);
      Signs();
      LiveKeys(spans, b);
      LiveKeys(spans, c);
      if refusals == old(refusals) {
        InvTiled(Tight);
        FreeBefore(t1, spans, t[a], b);
      }
    }

    /** Frees the second, which stays by itself between a returned span and the third. */
    method FreeSecond(b: SpanId, c: SpanId)
      requires Valid() && !aggressive && !wasAggressive && !Releasing()
      requires Beside(spans, b, c, true) && spans[b].location == InUse && spans[c].location == InUse
      modifies `spans, `pagemap, `normal, `returned, `freePages, `unmappedPages, `committedPages, `refusals, `releaseIndex, `scavengeCounter
      ensures Valid() && refusals >= old(refusals) && Packed(spans) && c in spans && spans[c].location == InUse
      ensures OnlyReturned(old(spans), b) ==> Exposed(spans, c)
    {
      hide Exposed, Packed, Live, Tiled, Tagged, Filed, Pages, Coalesced, Absorbed, Engulfed, NoneBeside, Inv;
      ghost var t := spans;
      LiveKeys(t, c);
      if OnlyReturned(t, b) { NoNormal(t, b); }
      DeleteLocked(b);
      LiveKeys(spans, c);
      if OnlyReturned(t, b) {
        ghost var k :| Beside(t, k, b, true) && t[k].Free();
        assert Beside(spans, b, c, true) && Beside(spans, k, b, true);
        TripleExposed(spans, k, b, c);
      }
      StillPacked();
    }

    /** The run of `AggressiveLeavesTouching`. */
    method LeaveTouching() returns (ghost before: Table, ghost last: SpanId)
      requires Valid() && spans == map[] && limit == 0 && smallestSpan == 1 && !aggressive && !wasAggressive && !Releasing()
      requires refusals == 0 && denials == 0 && lost == 0
      modifies this
      ensures Valid()
      ensures refusals == 0 && denials == 0 && lost == 0 ==>
                aggressive && Packed(before) && Exposed(before, last) && !Packed(spans)
    {
      hide Exposed, Packed, Live, Tiled, Tagged, Filed, Pages, Coalesced, Absorbed, Engulfed, Inv;
      before, last := spans, SpanAt(0);
      var r := NewLocked(3);
      if r.None? {
        return;
      }
      var a := r.value;
      var b := Split(a, 1);
      var c := Split(b, 1);
      FreeFirst(a, b, c);
      FreeSecond(b, c);
      SetAggressiveDecommit(true);
      before, last := spans, c;
      DeleteLocked(c);
    }

    lemma StillPacked()
      requires Valid() && !wasAggressive
      ensures Packed(spans)
    {
    }

    method SetAggressiveDecommit(on: bool)
      requires Valid()
      modifies `aggressive, `wasAggressive
      ensures Valid() && aggressive == on && wasAggressive == (old(wasAggressive) || on)
    {
      hide Tiled, Tagged, Filed, Pages, Coalesced;
      aggressive := on;
      wasAggressive := wasAggressive || on;
    }

    constructor (smallest: int, heapLimit: int, metadata: int)
      requires 1 <= smallest <= PageLimit && WordLimit % smallest == 0 && heapLimit >= 0 && metadata >= 0
      ensures Valid() && spans == map[] && limit == heapLimit && smallestSpan == smallest && !wasAggressive
      ensures refusals == 0 && denials == 0 && lost == 0 && !aggressive
    {
      smallestSpan := smallest;
      spans, pagemap := map[], map[];
      normal, returned := EmptyBins(), EmptyBins();
      systemPages, freePages, unmappedPages, committedPages := 0, 0, 0, 0;
      scavengeCounter, releaseIndex := 0, MaxPages;
      aggressive, releaseRate, limit, taken := false, 1.0, heapLimit, metadata;
      lost, wasAggressive, refusals, denials := 0, false, 0, 0;
    }
  }

  lemma TripleExposed(t: Table, a: SpanId, b: SpanId, c: SpanId)
    requires Beside(t, b, c, true) && Beside(t, a, b, true) && t[b].location == Normal && t[a].location == Returned && a != c
    ensures Exposed(t, c)
  {
  }

  lemma NoNormal(t: Table, id: SpanId)
    requires forall i :: i in t ==> t[i].location != Normal
    ensures NoneBeside(t, id, Normal)
  {
  }

  /** A free page just before a span in use ends its free span. */
  lemma FreeBefore(t: Table, u: Table, s: Span, b: SpanId)
    requires Engulfed(s, t) && Absorbed(t, u) && Tiled(u) && b in u && u[b].location == InUse
    requires s.length >= 1 && s.End() == u[b].start
    ensures exists k :: Beside(u, k, b, true) && u[k].Free()
  {
    hide Tiled;
    var i :| i in t && t[i].Free() && s.Within(t[i]);
    assert Engulfed(t[i], u);
    var k :| k in u && u[k].Free() && t[i].Within(u[k]);
    TwoApart(u, k, b);
    assert Beside(u, k, b, true);
  }

  /** A run of the heap after which returned spans touch: three pages in a row are allocated and
      cut apart, the first is freed and released, the second freed, and the third freed with
      aggressive decommit on.  `before` is the table of spans just before that. */
  method AggressiveLeavesTouching() returns (heap: PageHeap, ghost before: Table, ghost last: SpanId)
    ensures heap.Valid()
    ensures heap.refusals == 0 && heap.denials == 0 && heap.lost == 0 ==>
              heap.aggressive && Packed(before) && Exposed(before, last) && !Packed(heap.spans)
  {
    hide Exposed, Packed, Live, Tiled, Tagged, Filed, Pages, Coalesced;
    heap := new PageHeap(1, 0, 0);
    heap.releaseRate := 0.0;
    before, last := heap.LeaveTouching();
  }
}
