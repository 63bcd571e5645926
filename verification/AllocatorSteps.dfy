/** What each step of the concurrent system does, said of the states before and after: where
    objects go, which slots and cache sizes change, and where the thread stands next. */
module AllocatorSteps {
  import opened Spans
  import opened Cells
  import opened Central
  import opened Allocator
  import opened AllocatorProof

  /** Thread `t`, at `pc`, has its lock and the outside world decides `ch`. */
  ghost predicate At(cfg: Config, s: State, t: int, pc: Pc, ch: Choice) {
    Inv(cfg, s) && 0 <= t < |s.threads| && s.threads[t].pc == pc && s.threads[t].has && ChoiceOk(cfg, s, pc, ch)
  }

  /** Only thread `t`, now at `pc` without a lock, and class `cl` have changed; no object moved to or from
      a client or a thread list. */
  ghost predicate Moved(s: State, s': State, t: int, pc: Pc, cl: int, c: CentralList)
    requires 0 <= t < |s.threads| && 0 <= cl < |s.central|
  {
    && s'.live == s.live && s'.client == s.client && s'.central == s.central[cl := c]
    && s'.threads == s.threads[t := s.threads[t].(pc := pc, has := false)]
  }

  /** Thread `t` is back from RemoveRange with `chain`: the first object is the client's, the others come
      first on the thread's list; class `cl` is now `c`. */
  ghost predicate Served(s: State, s': State, t: int, cl: int, chain: seq<Addr>, c: CentralList)
    requires 0 <= t < |s.threads| && 0 <= cl < |s.central| && 0 <= cl < |s.client| && 0 <= cl < |s.threads[t].lists|
  {
    && chain != [] && s'.live == s.live && s'.central == s.central[cl := c]
    && s'.client == s.client[cl := s.client[cl] + multiset{chain[0]}]
    && |s'.threads| == |s.threads| && s'.threads[t].pc == Idle && !s'.threads[t].has
    && s'.threads[t].lists == s.threads[t].lists[cl := chain[1..] + s.threads[t].lists[cl]]
    && forall u :: 0 <= u < |s.threads| && u != t ==> s'.threads[u] == s.threads[u]
  }

  lemma Ranges(cfg: Config, s: State, t: int, k: int)
    requires Inv(cfg, s) && 0 <= t < |s.threads| && 0 <= k < |cfg|
    ensures k < |s.central| && k < |s.client| && k < |s.threads[t].lists| && ConfigOk(cfg)
  {
    hide SpansOk, Balanced, CentralsOk, PcsOk, Homed, Mutex;
  }

  // ---------------------------------------------------------------- RemoveRange

  /** A request for a whole batch is served from the last slot whenever there is one. */
  lemma RemoveTakesSlot(cfg: Config, s: State, t: int, cl: int, ch: Choice)
    requires IsClass(cfg, cl) && At(cfg, s, t, Remove(cl, cfg[cl].batch), ch)
    requires cl < |s.central| && s.central[cl].slots != []
    ensures cl < |s.client| && cl < |s.threads[t].lists|
    ensures var c, last := s.central[cl], |s.central[cl].slots| - 1;
      && |c.slots[last]| == cfg[cl].batch
      && Served(s, Run(cfg, s, t, ch), t, cl, c.slots[last], c.(slots := c.slots[..last]))
  {
    hide SpansOk, Balanced, CentralsOk, PcsOk, Homed, Mutex, FetchMany, CellsOf, CutsOk, ListsOk, CountsOk, SlotsOk, AllOut, Kept;
    Ranges(cfg, s, t, cl);
    InvCentral(cfg, s, cl);
    PopSlotKeeps(cfg[cl], s.live, cl, s.central[cl]);
  }

  /** Otherwise it is served from the spans, with all that was asked for unless they run out, and slots stay
      as they are. */
  lemma RemoveTakesObjects(cfg: Config, s: State, t: int, cl: int, n: int, ch: Choice) returns (chain: seq<Addr>, c: CentralList)
    requires IsClass(cfg, cl) && At(cfg, s, t, Remove(cl, n), ch) && cl < |s.central|
    requires (n != cfg[cl].batch || s.central[cl].slots == []) && s.central[cl].nonempty != []
    ensures cl < |s.client| && cl < |s.threads[t].lists|
    ensures Served(s, Run(cfg, s, t, ch), t, cl, chain, c) && |chain| <= n && (|chain| < n ==> c.nonempty == [])
    ensures Kept(c) + multiset(chain) == Kept(s.central[cl])
    ensures c.slots == s.central[cl].slots && c.cacheSize == s.central[cl].cacheSize && c.maxCache == s.central[cl].maxCache
  {
    hide SpansOk, Balanced, CentralsOk, PcsOk, Homed, Mutex, FetchMany, CellsOf, CutsOk, ListsOk, CountsOk, SlotsOk, AllOut, Kept, Linked;
    Ranges(cfg, s, t, cl);
    InvPc(cfg, s, t);
    InvCentral(cfg, s, cl);
    LinkedOk(s.central[cl]);
    FetchManyKeeps(cfg[cl], s.live, cl, s.central[cl], n);
    chain, c := FetchMany(s.central[cl], n).0, FetchMany(s.central[cl], n).1;
  }

  /** The page heap is asked exactly if no slot can serve the request and no span has an object. */
  lemma RemoveAsks(cfg: Config, s: State, t: int, cl: int, n: int, ch: Choice)
    requires IsClass(cfg, cl) && At(cfg, s, t, Remove(cl, n), ch) && cl < |s.central|
    ensures |Run(cfg, s, t, ch).threads| == |s.threads|
    ensures Run(cfg, s, t, ch).threads[t].pc.Ask? <==>
              (n != cfg[cl].batch || s.central[cl].slots == []) && s.central[cl].nonempty == []
    ensures Run(cfg, s, t, ch).threads[t].pc.Ask? ==> Moved(s, Run(cfg, s, t, ch), t, Ask(cl, n), cl, s.central[cl])
  {
    hide SpansOk, Balanced, CentralsOk, PcsOk, Homed, Mutex, FetchMany, CellsOf, CutsOk, ListsOk, CountsOk, SlotsOk, AllOut, Kept, Linked;
    Ranges(cfg, s, t, cl);
    InvPc(cfg, s, t);
    InvCentral(cfg, s, cl);
    LinkedOk(s.central[cl]);
    FetchManyKeeps(cfg[cl], s.live, cl, s.central[cl], n);
    if n == cfg[cl].batch && s.central[cl].slots != [] { RemoveTakesSlot(cfg, s, t, cl, ch); }
  }

  // ---------------------------------------------------------------- Populate

  /** What the page heap returns, and only that, becomes a span of the class, all of whose cells are in hand. */
  lemma AskGetsSpan(cfg: Config, s: State, t: int, cl: int, n: int, ch: Choice)
    requires IsClass(cfg, cl) && ConfigOk(cfg) && At(cfg, s, t, Ask(cl, n), ch) && cl < |s.central|
    ensures var s' := Run(cfg, s, t, ch);
      if ch.span.None? then Moved(s, s', t, Carry(cl, n, None), cl, s.central[cl])
      else
        var (id, start) := ch.span.value;
        && id !in s.live && s'.live == s.live[id := Span(start, cfg[cl].pages, InUse, cl)]
        && Moved(s, s'.(live := s.live), t, Carry(cl, n, Some((id, CellsOf(cfg[cl], start)))), cl, s.central[cl])
  {
    hide SpansOk, Balanced, CentralsOk, PcsOk, Homed, Mutex, CellsOf, Tiled;
  }

  /** With a new span the request is served, at least in part; without one exactly if another thread has
      given objects back in the meantime. */
  lemma CarryServes(cfg: Config, s: State, t: int, cl: int, n: int, got: Option<(SpanId, seq<Addr>)>, ch: Choice)
    returns (chain: seq<Addr>, c: CentralList)
    requires IsClass(cfg, cl) && At(cfg, s, t, Carry(cl, n, got), ch) && cl < |s.central|
    ensures cl < |s.client| && cl < |s.threads[t].lists|
    ensures var s' := Run(cfg, s, t, ch);
      if chain == [] then Moved(s, s', t, Idle, cl, c) && c == s.central[cl] else Served(s, s', t, cl, chain, c)
    ensures chain == [] <==> got.None? && s.central[cl].nonempty == []
    ensures |chain| <= n && (|chain| < n ==> c.nonempty == [])
    ensures Kept(c) + multiset(chain) == Kept(s.central[cl]) + (if got.Some? then multiset(got.value.1) else multiset{})
    ensures c.cuts.Keys == s.central[cl].cuts.Keys + (if got.Some? then {got.value.0} else {})
    ensures c.slots == s.central[cl].slots && c.cacheSize == s.central[cl].cacheSize && c.maxCache == s.central[cl].maxCache
  {
    hide SpansOk, Balanced, CentralsOk, PcsOk, Homed, Mutex, FetchMany, CellsOf, CutsOk, ListsOk, CountsOk, SlotsOk, AllOut, Kept, Linked, AddSpan;
    Ranges(cfg, s, t, cl);
    InvPc(cfg, s, t);
    InvCentral(cfg, s, cl);
    var c0 := s.central[cl];
    LinkedOk(c0);
    if got.Some? {
      var (id, cells) := got.value;
      AddLinked(c0, id, cells);
      PopulateKeeps(cfg[cl], s.live, cl, c0, id, cells, n);
      PopulateFull(cfg[cl], s.live, cl, c0, id, cells, n);
      chain, c := FetchMany(AddSpan(c0, id, cells), n).0, FetchMany(AddSpan(c0, id, cells), n).1;
    } else {
      FetchKeeps(cfg[cl], s.live, cl, c0, n);
      FetchManyKeeps(cfg[cl], s.live, cl, c0, n);
      chain, c := FetchMany(c0, n).0, FetchMany(c0, n).1;
      assert s.central[cl := c0] == s.central;
    }
  }

  lemma AddLinked(c: CentralList, i: SpanId, cells: seq<Addr>)
    requires Linked(c)
    ensures Linked(AddSpan(c, i, cells))
  {
  }

  lemma PopulateFull(k: Class, t: Table, cl: int, c: CentralList, i: SpanId, cells: seq<Addr>, n: int)
    requires k.Ok() && CentralOk(k, t, cl, c) && i !in c.cuts && SpanOk(k, t, cl, i) && cells == CellsOf(k, t[i].start) && n >= 1
    requires Linked(AddSpan(c, i, cells))
    ensures var (chain, c') := FetchMany(AddSpan(c, i, cells), n); |chain| < n ==> c'.nonempty == []
  {
    hide CellsOf, Kept, CutsOk, ListsOk, CountsOk, SlotsOk, SpanOk, FetchMany, Linked;
    AddSpanKeeps(k, t, cl, c, i, cells);
    FetchManyKeeps(k, t, cl, AddSpan(c, i, cells), n);
  }

  // ---------------------------------------------------------------- release to spans

  /** `chain` went back to the spans of class `cl`, which was `c` before: all of it, or up to an object that
      completed span `id`, which is then in hand whole with what is left of the chain. */
  ghost predicate Dropped(cfg: Config, s: State, s': State, t: int, cl: int, c: CentralList, chain: seq<Addr>, after: After)
    requires ConfigOk(cfg) && 0 <= t < |s.threads| && 0 <= cl < |cfg| == |s.central|
  {
    && |s'.threads| == |s.threads| && |s'.central| == |s.central|
    && var pc, c' := s'.threads[t].pc, s'.central[cl];
       && Moved(s, s', t, pc, cl, c')
       && c'.slots == c.slots && c'.cacheSize == c.cacheSize && c'.maxCache == c.maxCache
       && if pc.Drain? then
            && pc.cl == cl && pc.after == after && pc.id in c.cuts && c'.cuts.Keys == c.cuts.Keys - {pc.id}
            && SpanOk(cfg[cl], s.live, cl, pc.id) && multiset(pc.gone) == multiset(CellsOf(cfg[cl], s.live[pc.id].start))
            && |pc.rest| < |chain| && Suffix(pc.rest, chain)
            && Kept(c') + multiset(pc.gone) + multiset(pc.rest) == Kept(c) + multiset(chain)
          else
            && pc == Finish(after) && c'.cuts.Keys == c.cuts.Keys && Kept(c') == Kept(c) + multiset(chain)
  }

  lemma {:induction false} RestIsSuffix(k: Class, t: Table, c: CentralList, chain: seq<Addr>)
    requires k.Ok()
    ensures var r := ReleaseListToSpans(k, t, c, chain); Suffix(r.rest, chain) && (r.freed.Some? ==> |r.rest| < |chain|)
    decreases |chain|
  {
    hide Owner, ReleaseToSpans, Suffix;
    SuffixSelf(chain);
    if chain != [] {
      var i := Owner(t, PageOf(chain[0]));
      if i.Some? && i.value in c.cuts {
        var (c', gone) := ReleaseToSpans(k, c, chain[0], i.value);
        if gone.None? {
          RestIsSuffix(k, t, c', chain[1..]);
          SuffixRest(ReleaseListToSpans(k, t, c', chain[1..]).rest, chain);
        }
      }
    }
  }

  predicate Suffix(r: seq<Addr>, q: seq<Addr>) { |r| <= |q| && q[|q| - |r|..] == r }

  lemma SuffixSelf(q: seq<Addr>)
    ensures Suffix(q, q) && Suffix([], q) && (q != [] ==> Suffix(q[1..], q))
  {
  }

  lemma SuffixRest(r: seq<Addr>, q: seq<Addr>)
    requires q != [] && Suffix(r, q[1..])
    ensures Suffix(r, q) && |r| < |q|
  {
    assert q[|q| - |r|..] == q[1..][|q| - 1 - |r|..];
  }

  lemma DropShape(cfg: Config, s: State, t: int, cl: int, c: CentralList, chain: seq<Addr>, after: After)
    requires Inv(cfg, s) && 0 <= t < |s.threads| && IsClass(cfg, cl) && Carried(s.threads[t].pc).None?
    requires CentralOk(cfg[cl], s.live, cl, c) && c.cuts == s.central[cl].cuts
    requires Kept(c) + multiset(chain) <= Kept(s.central[cl]) + Hand(s.threads[t].pc, cl)
    ensures ConfigOk(cfg) && |s.central| == |cfg|
    ensures Dropped(cfg, s, DropRun(cfg, WithCentral(s, cl, c), t, cl, chain, after), t, cl, c, chain, after)
  {
    hide SpansOk, Balanced, CentralsOk, PcsOk, Homed, Mutex, Kept, CellsOf, ReleaseListToSpans, CentralOk, Hand, Carried;
    Ranges(cfg, s, t, cl);
    DropReady(cfg, s, t, cl, c, chain);
    InvTiled(cfg, s);
    ReleaseListKeeps(cfg[cl], s.live, cl, c, chain);
    RestIsSuffix(cfg[cl], s.live, c, chain);
    DropRunIs(cfg, s, t, cl, c, chain, after);
    FinishIs(after);
  }

  lemma FinishIs(after: After)
    ensures !Finish(after).Drain?
  {
  }

  /** A chain in hand goes back to the spans. */
  lemma DropOwnShape(cfg: Config, s: State, t: int, cl: int, chain: seq<Addr>, after: After)
    requires Inv(cfg, s) && 0 <= t < |s.threads| && IsClass(cfg, cl) && Carried(s.threads[t].pc).None?
    requires multiset(chain) <= Hand(s.threads[t].pc, cl)
    ensures ConfigOk(cfg) && |s.central| == |cfg|
    ensures Dropped(cfg, s, DropRun(cfg, s, t, cl, chain, after), t, cl, s.central[cl], chain, after)
  {
    hide SpansOk, Balanced, CentralsOk, PcsOk, Homed, Mutex, Kept, CellsOf, DropRun, CentralOk, Hand, Carried, Dropped;
    Ranges(cfg, s, t, cl);
    InvCentral(cfg, s, cl);
    DropShape(cfg, s, t, cl, s.central[cl], chain, after);
    assert WithCentral(s, cl, s.central[cl]) == s;
  }

  /** ReleaseListToSpans goes on where it had to let go of the lock. */
  lemma DropGoesOn(cfg: Config, s: State, t: int, cl: int, rest: seq<Addr>, after: After, ch: Choice)
    requires At(cfg, s, t, Drop(cl, rest, after), ch)
    ensures ConfigOk(cfg) && 0 <= cl < |cfg| == |s.central|
    ensures Dropped(cfg, s, Run(cfg, s, t, ch), t, cl, s.central[cl], rest, after)
  {
    hide SpansOk, Balanced, CentralsOk, PcsOk, Homed, Mutex, Kept, CellsOf, DropRun, CentralOk, Dropped, AfterHand;
    InvPc(cfg, s, t);
    Ranges(cfg, s, t, cl);
    DropOwnShape(cfg, s, t, cl, rest, after);
  }

  /** A span all of whose objects are back leaves the spans in use, and nothing else changes. */
  lemma DrainGives(cfg: Config, s: State, t: int, cl: int, id: SpanId, gone: seq<Addr>, rest: seq<Addr>, after: After, ch: Choice)
    requires At(cfg, s, t, Drain(cl, id, gone, rest, after), ch)
    ensures 0 <= cl < |s.central| && id in s.live
    ensures var s' := Run(cfg, s, t, ch);
      s'.live == s.live - {id} && Moved(s, s'.(live := s.live), t, Drop(cl, rest, after), cl, s.central[cl])
  {
    hide SpansOk, Balanced, CentralsOk, PcsOk, Homed, Mutex, CellsOf;
    InvPc(cfg, s, t);
    Ranges(cfg, s, t, cl);
  }

  // ---------------------------------------------------------------- InsertRange

  /** A full batch goes into a slot whenever one is free; when all are in use and the cache may still grow,
      the thread turns to the first victim it is offered; everything else goes back to the spans. */
  lemma InsertPlaces(cfg: Config, s: State, t: int, cl: int, chain: seq<Addr>, ch: Choice)
    requires At(cfg, s, t, Insert(cl, chain), ch)
    ensures IsClass(cfg, cl) && ConfigOk(cfg) && |s.central| == |cfg|
    ensures var s', c := Run(cfg, s, t, ch), s.central[cl];
      if |chain| == cfg[cl].batch && |c.slots| < c.cacheSize then
        Moved(s, s', t, Idle, cl, c.(slots := c.slots + [chain]))
      else if |chain| == cfg[cl].batch && c.cacheSize < c.maxCache && (ch.first.Some? || ch.second.Some?) then
        Moved(s, s', t, Evict(cl, chain, if ch.first.Some? then ch.first.value else ch.second.value, ch.first.None?), cl, c)
      else
        Dropped(cfg, s, s', t, cl, c, chain, Done)
  {
    hide SpansOk, Balanced, CentralsOk, PcsOk, Homed, Mutex, Kept, CellsOf, DropRun, CentralOk, Dropped;
    InvPc(cfg, s, t);
    Ranges(cfg, s, t, cl);
    CacheRange(cfg, s, cl);
    assert s.central[cl := s.central[cl]] == s.central;
    DropOwnShape(cfg, s, t, cl, chain, Done);
  }

  /** A victim gives up a free slot if it has one; a used one only if forced, and then its last batch goes back to
      its spans; with no slots it gives none. */
  lemma EvictTakes(cfg: Config, s: State, t: int, cl: int, chain: seq<Addr>, victim: int, force: bool, ch: Choice)
    requires At(cfg, s, t, Evict(cl, chain, victim, force), ch)
    ensures ConfigOk(cfg) && 0 <= victim < |cfg| == |s.central|
    ensures var s', c := Run(cfg, s, t, ch), s.central[victim];
      if c.cacheSize > |c.slots| then
        Moved(s, s', t, Back(cl, chain, force, true), victim, c.(cacheSize := c.cacheSize - 1))
      else if force && c.slots != [] then
        var last := |c.slots| - 1;
        Dropped(cfg, s, s', t, victim, c.(slots := c.slots[..last], cacheSize := last), c.slots[last], Resume(cl, chain, force))
      else
        Moved(s, s', t, Back(cl, chain, force, false), victim, c)
  {
    hide SpansOk, Balanced, CentralsOk, PcsOk, Homed, Mutex, Kept, CellsOf, DropRun, CentralOk, Dropped;
    InvPc(cfg, s, t);
    Ranges(cfg, s, t, victim);
    var c := s.central[victim];
    assert s.central[victim := c] == s.central;
    if victim > 0 {
      CacheRange(cfg, s, victim);
      InvCentral(cfg, s, victim);
      if force && c.slots != [] && c.cacheSize == |c.slots| {
        PopSlotKeeps(cfg[victim], s.live, victim, c);
        var c' := PopSlot(c).1;
        ResizeKeeps(cfg[victim], s.live, victim, c', c.cacheSize - 1);
        DropShape(cfg, s, t, victim, c'.(cacheSize := c.cacheSize - 1), PopSlot(c).0, Resume(cl, chain, force));
      }
    }
  }

  /** Back at its own class the thread adds the slot it got, if there is still room for one, and fills it; without one
      it makes its second, forced try, once; otherwise the batch goes back to the spans. */
  lemma BackPlaces(cfg: Config, s: State, t: int, cl: int, chain: seq<Addr>, force: bool, ok: bool, ch: Choice)
    requires At(cfg, s, t, Back(cl, chain, force, ok), ch)
    ensures IsClass(cfg, cl) && ConfigOk(cfg) && |s.central| == |cfg|
    ensures var s', c := Run(cfg, s, t, ch), s.central[cl];
      if ok && c.cacheSize < c.maxCache then
        Moved(s, s', t, Idle, cl, c.(slots := c.slots + [chain], cacheSize := c.cacheSize + 1))
      else if !ok && !force && ch.second.Some? then
        Moved(s, s', t, Evict(cl, chain, ch.second.value, true), cl, c)
      else
        Dropped(cfg, s, s', t, cl, c, chain, Done)
  {
    hide SpansOk, Balanced, CentralsOk, PcsOk, Homed, Mutex, Kept, CellsOf, DropRun, CentralOk, Dropped;
    InvPc(cfg, s, t);
    Ranges(cfg, s, t, cl);
    assert s.central[cl := s.central[cl]] == s.central;
    DropOwnShape(cfg, s, t, cl, chain, Done);
  }

  // ---------------------------------------------------------------- steps without a lock

  /** Only thread `t` and what clients hold of class `cl` have changed. */
  ghost predicate LocalTo(s: State, s': State, t: int, cl: int)
    requires 0 <= t < |s.threads| && 0 <= cl < |s.client|
  {
    && s'.live == s.live && s'.central == s.central && s'.client == s.client[cl := if cl < |s'.client| then s'.client[cl] else multiset{}]
    && |s'.threads| == |s.threads| && forall u :: 0 <= u < |s.threads| && u != t ==> s'.threads[u] == s.threads[u]
  }

  /** An allocation takes the first object of the thread's list, a free puts one there. */
  lemma ListIsStack(cfg: Config, s: State, t: int, k: int, o: Addr)
    requires Inv(cfg, s) && IdleThread(s, t) && IsClass(cfg, k) && k < |s.client| && o in s.client[k]
    ensures k < |s.threads[t].lists| && Enabled(cfg, s, Free(t, o))
    ensures var s' := Apply(cfg, s, Free(t, o));
      && LocalTo(s, s', t, k) && s'.client[k] == s.client[k] - multiset{o}
      && s'.threads[t] == s.threads[t].(lists := s.threads[t].lists[k := [o] + s.threads[t].lists[k]])
      && Typed(cfg, s') && Enabled(cfg, s', Malloc(t, k)) && Apply(cfg, s', Malloc(t, k)) == s
  {
    hide SpansOk, Balanced, CentralsOk, PcsOk, Homed, Mutex, ClassAt, ZeroOk;
    Ranges(cfg, s, t, k);
    FreeFindsClass(cfg, s, k, o);
    assert ClientHas(cfg, s, o);
    FreeKeeps(cfg, s, t, o);
    var s' := Apply(cfg, s, Free(t, o));
    var q := s.threads[t].lists[k];
    assert ([o] + q)[1..] == q;
    assert s.client[k] - multiset{o} + multiset{o} == s.client[k];
    var s2 := Apply(cfg, s', Malloc(t, k));
    assert s2.threads[t].lists == s.threads[t].lists;
    assert s2.client == s.client && s2.threads == s.threads;
  }

  /** The other direction: what is allocated can be freed, and then nothing has happened. */
  lemma MallocUndone(cfg: Config, s: State, t: int, k: int)
    requires Inv(cfg, s) && Enabled(cfg, s, Malloc(t, k))
    ensures k < |s.client| && k < |s.threads[t].lists|
    ensures var s', o := Apply(cfg, s, Malloc(t, k)), s.threads[t].lists[k][0];
      && LocalTo(s, s', t, k) && s'.client[k] == s.client[k] + multiset{o} && s'.threads[t].lists[k] == s.threads[t].lists[k][1..]
      && Typed(cfg, s') && Enabled(cfg, s', Free(t, o)) && Apply(cfg, s', Free(t, o)) == s
  {
    hide SpansOk, Balanced, CentralsOk, PcsOk, Homed, Mutex, ClassAt, ZeroOk;
    Ranges(cfg, s, t, k);
    var s', o := Apply(cfg, s, Malloc(t, k)), s.threads[t].lists[k][0];
    MallocKeeps(cfg, s, t, k);
    assert o in s'.client[k];
    FreeFindsClass(cfg, s', k, o);
    assert ClientHas(cfg, s', o);
    var s2 := Apply(cfg, s', Free(t, o));
    assert [o] + s.threads[t].lists[k][1..] == s.threads[t].lists[k];
    assert s.client[k] + multiset{o} - multiset{o} == s.client[k];
    assert s2.threads[t].lists == s.threads[t].lists;
    assert s2.client == s.client && s2.threads == s.threads;
  }

  /** Where a thread without its own object, without its own list, or with too long a list turns. */
  lemma StartsOperation(cfg: Config, s: State, t: int, cl: int, n: int, o: Addr)
    requires Inv(cfg, s) && IdleThread(s, t) && IsClass(cfg, cl)
    ensures cl < |s.central| && cl < |s.client| && cl < |s.threads[t].lists|
    ensures Enabled(cfg, s, Refill(t, cl, n)) ==>
              Moved(s, Apply(cfg, s, Refill(t, cl, n)), t, Remove(cl, n), cl, s.central[cl])
    ensures Enabled(cfg, s, Flush(t, cl, n)) ==>
              var s', q := Apply(cfg, s, Flush(t, cl, n)), s.threads[t].lists[cl];
              LocalTo(s, s', t, cl) && s'.client == s.client
              && s'.threads[t] == Thread(s.threads[t].lists[cl := q[n..]], Insert(cl, q[..n]), false)
    ensures o in s.client[cl] ==>
              Enabled(cfg, s, FreeDirect(t, o)) &&
              var s' := Apply(cfg, s, FreeDirect(t, o));
              LocalTo(s, s', t, cl) && s'.client[cl] == s.client[cl] - multiset{o}
              && s'.threads[t] == s.threads[t].(pc := Insert(cl, [o]), has := false)
  {
    hide SpansOk, Balanced, CentralsOk, PcsOk, Homed, Mutex, ClassAt, ZeroOk;
    Ranges(cfg, s, t, cl);
    assert s.central[cl := s.central[cl]] == s.central && s.client[cl := s.client[cl]] == s.client;
    if o in s.client[cl] {
      FreeFindsClass(cfg, s, cl, o);
      assert ClientHas(cfg, s, o);
    }
  }
}
