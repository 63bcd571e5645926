/** The central free list of one size class on linked objects: every operation under the
    lock does to the links what the functions of `Central` do to sequences. */
module CentralFreeLists {
  import opened Spans
  import opened Cells
  import opened Central
  import opened LinkedLists

  /** First and last object of a chain. */
  datatype Entry = Entry(head: Addr, tail: Addr)

  ghost predicate ChainTo(links: Links, e: Entry, q: seq<Addr>) {
    Chain(links, e.head, q) && (q != [] ==> e.tail == q[|q| - 1])
  }

  ghost predicate NoneOf(q: seq<Addr>, r: seq<Addr>) {
    forall o :: o in q ==> o !in r
  }

  /** No object is twice in the class or in the chains `q` in hand. */
  ghost predicate OnceWith(c: CentralList, q: seq<Addr>) {
    Once(Kept(c) + multiset(q))
  }

  lemma SpanApart(c: CentralList, q: seq<Addr>, i: SpanId)
    requires OnceWith(c, q) && i in c.cuts
    ensures NoneOf(c.cuts[i].objects, q)
    ensures forall j :: j in c.cuts && j != i ==> NoneOf(c.cuts[j].objects, c.cuts[i].objects)
    ensures forall s :: 0 <= s < |c.slots| ==> NoneOf(c.slots[s], c.cuts[i].objects)
  {
    var f := ObjectsOf;
    SumSplit(c.cuts, f, i);
    hide Sum, SlotSum;
    forall o | o in c.cuts[i].objects
      ensures o !in q && (forall j :: j in c.cuts && j != i ==> o !in c.cuts[j].objects)
      ensures forall s :: 0 <= s < |c.slots| ==> o !in c.slots[s]
    {
      assert f(c.cuts[i])[o] >= 1 && (Kept(c) + multiset(q))[o] <= 1;
      forall j | j in c.cuts && j != i ensures o !in c.cuts[j].objects { SumHas(c.cuts - {i}, f, j, o); }
      forall s | 0 <= s < |c.slots| ensures o !in c.slots[s] { SlotHas(c.slots, s, o); }
    }
  }

  lemma SlotApart(c: CentralList, q: seq<Addr>, s: int)
    requires OnceWith(c, q) && 0 <= s < |c.slots|
    ensures NoneOf(c.slots[s], q)
  {
    hide Sum, SlotSum;
    forall o | o in c.slots[s] ensures o !in q {
      SlotHas(c.slots, s, o);
      assert (Kept(c) + multiset(q))[o] <= 1;
    }
  }

  ghost predicate SpansLinked(links: Links, objects: map<SpanId, Addr>, refcount: map<SpanId, int>, c: CentralList) {
    && objects.Keys == c.cuts.Keys && refcount.Keys == c.cuts.Keys
    && (forall i :: i in c.cuts ==> Chain(links, objects[i], c.cuts[i].objects) && refcount[i] == c.cuts[i].refcount)
  }

  ghost predicate SlotsLinked(links: Links, slots: seq<Entry>, c: CentralList) {
    |slots| == |c.slots| && forall s :: 0 <= s < |slots| ==> ChainTo(links, slots[s], c.slots[s])
  }

  /** The lists of the class stay as they are when only objects outside it are written. */
  lemma ListsStay(was: Links, links: Links, objects: map<SpanId, Addr>, refcount: map<SpanId, int>,
          slots: seq<Entry>, c: CentralList, q: seq<Addr>)
    requires SpansLinked(was, objects, refcount, c) && SlotsLinked(was, slots, c) && OnlyLinks(was, links, q) && OnceWith(c, q)
    ensures SpansLinked(links, objects, refcount, c) && SlotsLinked(links, slots, c)
  {
    hide OnceWith;
    forall i | i in c.cuts ensures Chain(links, objects[i], c.cuts[i].objects) {
      SpanApart(c, q, i);
      ChainFrame(was, links, objects[i], c.cuts[i].objects);
    }
    forall s | 0 <= s < |slots| ensures ChainTo(links, slots[s], c.slots[s]) {
      SlotApart(c, q, s);
      assert ChainTo(was, slots[s], c.slots[s]);
      ChainFrame(was, links, slots[s].head, c.slots[s]);
    }
  }

  lemma FetchOnce(c: CentralList, n: int, hand: seq<Addr>)
    requires ListsOk(c) && Linked(c) && c.nonempty != [] && n >= 1 && OnceWith(c, hand)
    ensures var (q, c') := FetchFromOneSpans(c, n);
      OnceWith(c', q + hand) && ListsOk(c') && Linked(c')
  {
    FetchOneLists(c, n);
    FetchOneSum(c, n);
    FetchShape(c, n);
    hide FetchFromOneSpans, ListsOk, Sum, SlotSum;
    var (q, c') := FetchFromOneSpans(c, n);
    assert multiset(q + hand) == multiset(q) + multiset(hand);
    assert Kept(c') + multiset(q + hand) == Kept(c) + multiset(hand);
    LinkedOk(c');
  }

  /** Cutting the list of the first span. */
  lemma FetchLinks(links: Links, objects: map<SpanId, Addr>, refcount: map<SpanId, int>, slots: seq<Entry>,
          c: CentralList, n: int)
    requires SpansLinked(links, objects, refcount, c) && SlotsLinked(links, slots, c) && OnceWith(c, [])
    requires ListsOk(c) && Linked(c) && c.nonempty != [] && n >= 1
    ensures c.nonempty[0] in c.cuts
    ensures var (q, c') := FetchFromOneSpans(c, n);
      var i, all := c.nonempty[0], c.cuts[c.nonempty[0]].objects;
      var t := Take(all, n);
      var links' := links[all[t - 1] := Null];
      && SpansLinked(links', objects[i := if t < |all| then all[t] else Null], refcount[i := refcount[i] + t], c')
      && SlotsLinked(links', slots, c') && ChainTo(links', Entry(objects[i], all[t - 1]), q) && OnlyLinks(links, links', q)
  {
    hide FetchFromOneSpans, ListsOk, OnceWith, Chain, Linked;
    FetchShape(c, n);
    var i, all := c.nonempty[0], c.cuts[c.nonempty[0]].objects;
    var t := Take(all, n);
    var links' := links[all[t - 1] := Null];
    ChainCut(links, objects[i], all, t);
    SpanApart(c, [], i);
    forall j | j in c.cuts && j != i ensures Chain(links', objects[j], c.cuts[j].objects) {
      assert NoneOf(c.cuts[j].objects, all) && all[t - 1] in all;
      ChainFrame(links, links', objects[j], c.cuts[j].objects);
    }
    forall s | 0 <= s < |slots| ensures ChainTo(links', slots[s], c.slots[s]) {
      assert NoneOf(c.slots[s], all) && all[t - 1] in all && ChainTo(links, slots[s], c.slots[s]);
      ChainFrame(links, links', slots[s].head, c.slots[s]);
    }
  }

  class CentralFreeList {
    const k: Class
    const memory: Memory
    var objects: map<SpanId, Addr>        // head of the object list of each span
    var refcount: map<SpanId, int>
    var nonempty: seq<SpanId>
    var empty: seq<SpanId>
    var numSpans: int
    var counter: int
    var slots: seq<Entry>
    var cacheSize: int
    var maxCache: int
    ghost var value: CentralList          // the same with sequences for the linked lists

    ghost predicate Linking()
      reads this, memory
    {
      && SpansLinked(memory.links, objects, refcount, value) && SlotsLinked(memory.links, slots, value)
      && nonempty == value.nonempty && empty == value.empty && numSpans == value.numSpans && counter == value.counter
      && cacheSize == value.cacheSize && maxCache == value.maxCache
    }

    ghost predicate Valid()
      reads this, memory
    {
      k.Ok() && Linking() && OnceWith(value, []) && ListsOk(value) && Linked(value)
    }

    constructor (c: Class, size: int, max: int)
      requires c.Ok()
      ensures Valid() && fresh(memory) && value == CentralList(map[], [], [], 0, 0, [], size, max)
    {
      k := c;
      memory := new Memory();
      objects, refcount, nonempty, empty, numSpans, counter := map[], map[], [], [], 0, 0;
      slots, cacheSize, maxCache := [], size, max;
      value := CentralList(map[], [], [], 0, 0, [], size, max);
    }

    /** The walk of FetchFromOneSpans: `n` objects along the list, or to its end. */
    method Walk(head: Addr, n: int, ghost q: seq<Addr>) returns (result: int, prev: Addr, curr: Addr)
      requires Chain(memory.links, head, q) && q != [] && n >= 1
      ensures result == Take(q, n) >= 1
      ensures prev == q[result - 1] && curr == if result < |q| then q[result] else Null
      ensures curr == Null <==> result == |q|
    {
      hide Chain;
      ChainFrom(memory.links, head, q, 1);
      NotNull(memory.links, head, q);
      prev, curr, result := head, memory.links[head], 1;
      while result < n && curr != Null
        invariant 1 <= result <= |q| && result <= n && prev == q[result - 1] && curr == if result < |q| then q[result] else Null
        decreases n - result
      {
        ChainFrom(memory.links, head, q, result + 1);
        prev := curr;
        curr := memory.links[curr];
        result := result + 1;
      }
    }

    /** Takes up to `n` objects from the first span that has any. */
    method FetchFromOneSpans(n: int) returns (result: int, start: Addr, end: Addr, ghost q: seq<Addr>)
      requires Valid() && n >= 1
      modifies this, memory
      ensures k.Ok() && Linking() && (q, value) == Central.FetchFromOneSpans(old(value), n)
      ensures result == |q| && ChainTo(memory.links, Entry(start, end), q) && OnlyLinks(old(memory.links), memory.links, q)
    {
      hide Chain, ListsOk, OnceWith, Linked, Central.FetchFromOneSpans, SpansLinked, SlotsLinked;
      q := Central.FetchFromOneSpans(value, n).0;
      if nonempty == [] {
        FetchOneNone(value, n);
        EmptyChain(memory.links);
        return 0, Null, Null, q;
      }
      FetchShape(value, n);
      FetchLinks(memory.links, objects, refcount, slots, value, n);
      FirstLinked(memory.links, objects, refcount, value, nonempty[0]);
      var i := nonempty[0];
      var prev, curr;
      result, prev, curr := Walk(objects[i], n, value.cuts[i].objects);
      if curr == Null {
        nonempty, empty := nonempty[1..], [i] + empty;
      }
      start, end := objects[i], prev;
      objects := objects[i := curr];
      memory.links := memory.links[end := Null];
      refcount, counter := refcount[i := refcount[i] + result], counter - result;
      value := Central.FetchFromOneSpans(value, n).1;
    }

    /** SLL_PushRange of a freshly fetched chain `r` in front of the chain `q` in hand. */
    method Prepend(start: Addr, end: Addr, head: Addr, tail: Addr, ghost q: seq<Addr>, ghost r: seq<Addr>, ghost was: Links)
      returns (first: Addr, last: Addr)
      requires Valid() && OnceWith(value, r + q) && r != [] && q != []
      requires ChainTo(was, Entry(start, end), q) && OnlyLinks(was, memory.links, r) && ChainTo(memory.links, Entry(head, tail), r)
      modifies memory
      ensures Valid() && ChainTo(memory.links, Entry(first, last), r + q)
    {
      hide Chain, ListsOk, OnceWith, Linked, SpansLinked, SlotsLinked;
      HandsApart(value, r, q);
      ChainFrame(was, memory.links, start, q);
      ChainJoin(memory.links, head, r, start, q);
      ghost var before := memory.links;
      assert tail in r;
      memory.links := memory.links[tail := start];
      OnceLess(value, r + q, r);
      ListsStay(before, memory.links, objects, refcount, slots, value, r);
      return head, end;
    }

    /** One more round: objects of the next span go in front of the chain in hand. */
    method FetchMore(n: int, start: Addr, end: Addr, ghost q: seq<Addr>) returns (m: int, first: Addr, last: Addr,
            ghost r: seq<Addr>)
      requires Valid() && n >= 1 && OnceWith(value, q) && q != [] && ChainTo(memory.links, Entry(start, end), q)
      modifies this, memory
      ensures Valid() && OnceWith(value, r + q) && (r, value) == Central.FetchFromOneSpans(old(value), n)
      ensures m == |r| && ChainTo(memory.links, Entry(first, last), r + q)
    {
      hide Chain, ListsOk, OnceWith, Linked, Central.FetchFromOneSpans, Central.FetchMany, Linking;
      ghost var before := memory.links;
      FetchStep(value, n, q);
      var head, tail;
      m, head, tail, r := FetchFromOneSpans(n);
      if m == 0 {
        ChainFrame(before, memory.links, start, q);
        assert r + q == q;
        return m, start, end, r;
      }
      first, last := Prepend(start, end, head, tail, q, r, before);
    }

    /** Takes objects from span after span until it has `n` or the lists run dry. */
    method FetchMany(n: int) returns (result: int, start: Addr, end: Addr, ghost q: seq<Addr>)
      requires Valid() && n >= 1
      modifies this, memory
      ensures Valid() && OnceWith(value, q) && (q, value) == Central.FetchMany(old(value), n)
      ensures result == |q| && ChainTo(memory.links, Entry(start, end), q)
    {
      hide Chain, ListsOk, OnceWith, Linked, Central.FetchFromOneSpans, Central.FetchMany, Linking, SpansLinked, SlotsLinked;
      ghost var c := value;
      result, start, end, q := FetchFromOneSpans(n);
      FetchStep(c, n, []);
      assert q + [] == q;
      if result == 0 {
        return;
      }
      while result < n
        invariant 1 <= result <= n && result == |q| && Valid() && OnceWith(value, q) && ChainTo(memory.links, Entry(start, end), q)
        invariant var (more, last) := Central.FetchMany(value, n - result);
          Central.FetchMany(c, n) == (more + q, last)
      {
        ghost var was := value;
        var m;
        ghost var r;
        m, start, end, r := FetchMore(n - result, start, end, q);
        FetchStep(was, n - result, q);
        if m == 0 {
          assert [] + q == q && r + q == q;
          return;
        }
        result := result + m;
        MoreFirst(Central.FetchMany(value, n - result).0, r, q);
        q := r + q;
      }
      FetchNone(value);
      assert [] + q == q;
    }

    /** The part of RemoveRange under the lock; no object means that a new span is needed. */
    method RemoveRange(n: int) returns (result: int, start: Addr, end: Addr, ghost q: seq<Addr>)
      requires Valid() && n >= 1 && SlotsOk(k, value)
      modifies this, memory
      ensures Valid() && OnceWith(value, q) && result == |q| && ChainTo(memory.links, Entry(start, end), q)
      ensures (q, value) == RemoveLocked(k, old(value), n)
    {
      hide Chain, ListsOk, OnceWith, Linked, Central.FetchMany;
      if n == k.batch && slots != [] {
        PopOnce(value);
        var e := slots[|slots| - 1];
        assert ChainTo(memory.links, e, value.slots[|slots| - 1]);
        slots := slots[..|slots| - 1];
        q := PopSlot(value).0;
        value := PopSlot(value).1;
        return n, e.head, e.tail, q;
      }
      result, start, end, q := FetchMany(n);
    }

    /** A full batch goes into the next slot of the transfer cache. */
    method InsertSlot(start: Addr, end: Addr, ghost q: seq<Addr>)
      requires Valid() && OnceWith(value, q) && ChainTo(memory.links, Entry(start, end), q)
      modifies this
      ensures Valid() && value == PushSlot(old(value), q)
    {
      hide Chain, ListsOk, OnceWith, Linked;
      PushOnce(value, q);
      slots := slots + [Entry(start, end)];
      value := PushSlot(value, q);
    }

    /** InsertRange up to the point where it must look for space elsewhere: `done` if the batch is in a slot,
        `look` if the cache is full but may still grow. */
    method InsertRange(start: Addr, end: Addr, n: int, ghost q: seq<Addr>) returns (done: bool, look: bool)
      requires Valid() && OnceWith(value, q) && ChainTo(memory.links, Entry(start, end), q) && n == |q|
      requires SlotsOk(k, value)
      modifies this
      ensures Valid() && match InsertLocked(k, old(value), q)
        case Slotted(c) => done && value == c
        case ToSpans => !done && !look && value == old(value)
        case NoRoom => !done && look && value == old(value)
    {
      hide Chain, ListsOk, OnceWith, Linked, SpansLinked;
      if n == k.batch {
        if |slots| < cacheSize {
          InsertSlot(start, end, q);
          return true, false;
        }
        return false, cacheSize != maxCache;
      }
      return false, false;
    }

    /** ShrinkCache once it has the lock: gives up a slot, with the batch in it only if forced. */
    method ShrinkCache(force: bool) returns (ok: bool, evicted: Option<Entry>, ghost q: seq<Addr>)
      requires Valid() && SlotsOk(k, value)
      modifies this
      ensures Valid() && OnceWith(value, q)
      ensures match ShrinkLocked(old(value), force)
        case Refused => !ok && value == old(value) && q == []
        case Shrunk(c, gone) =>
          && ok && value == c && q == (if gone.Some? then gone.value else [])
          && (evicted.Some? <==> gone.Some?) && (evicted.Some? ==> ChainTo(memory.links, evicted.value, q))
    {
      hide Chain, ListsOk, OnceWith, Linked;
      evicted, q := None, [];
      if cacheSize == 0 {
        return false, None, [];
      }
      ResizeOnce(value, cacheSize - 1);
      if |slots| == cacheSize {
        if !force {
          return false, None, [];
        }
        PopOnce(value);
        cacheSize := cacheSize - 1;
        var e := slots[|slots| - 1];
        assert ChainTo(memory.links, e, value.slots[|slots| - 1]);
        slots := slots[..|slots| - 1];
        q := PopSlot(value).0;
        ResizeOnceWith(PopSlot(value).1, q, cacheSize);
        value := PopSlot(value).1.(cacheSize := cacheSize);
        return true, Some(e), q;
      }
      cacheSize := cacheSize - 1;
      value := value.(cacheSize := cacheSize);
      return true, None, [];
    }

    /** The end of MakeCacheSpace and InsertRange once another class has given up a slot. */
    method GrowCache(start: Addr, end: Addr, ghost q: seq<Addr>) returns (ok: bool)
      requires Valid() && OnceWith(value, q) && ChainTo(memory.links, Entry(start, end), q)
      modifies this
      ensures Valid() && (ok <==> GrowLocked(old(value), q).Some?)
      ensures value == (if ok then GrowLocked(old(value), q).value else old(value))
    {
      hide Chain, ListsOk, OnceWith, Linked;
      if cacheSize < maxCache {
        ResizeOnce(value, cacheSize + 1);
        ResizeOnceWith(value, q, cacheSize + 1);
        cacheSize := cacheSize + 1;
        value := value.(cacheSize := cacheSize);
        InsertSlot(start, end, q);
        return true;
      }
      return false;
    }

    /** The locked end of Populate. */
    method AddSpan(i: SpanId, head: Addr, num: int, ghost q: seq<Addr>)
      requires Valid() && OnceWith(value, q) && Chain(memory.links, head, q) && q != [] && num == |q| && i !in value.cuts
      modifies this
      ensures Valid() && value == Central.AddSpan(old(value), i, q)
    {
      hide Chain, ListsOk, OnceWith, Linked, SpansLinked, SlotsLinked;
      AddOnce(value, i, q);
      AddLinks(memory.links, objects, refcount, slots, value, i, head, q);
      objects, refcount := objects[i := head], refcount[i := 0];
      nonempty, numSpans, counter := [i] + nonempty, numSpans + 1, counter + num;
      value := Central.AddSpan(value, i, q);
    }

    /** Populate with the span it got: cuts it up, then adds it under the lock. */
    method Populate(i: SpanId, start: PageId)
      requires Valid() && i !in value.cuts && start >= 1 && start + k.pages < PageLimit
      requires OnceWith(value, CellsOf(k, start))
      modifies this, memory
      ensures Valid() && value == Central.AddSpan(old(value), i, CellsOf(k, start))
      ensures OnlyLinks(old(memory.links), memory.links, CellsOf(k, start))
    {
      hide Chain, ListsOk, OnceWith, Linked, SpansLinked, SlotsLinked, CellsOf;
      ghost var was, q := memory.links, CellsOf(k, start);
      CellsFacts(k, start);
      var head, num := memory.Carve(k, start);
      ListsStay(was, memory.links, objects, refcount, slots, value, q);
      AddSpan(i, head, num, q);
    }

    /** Puts one object back into its span; the span leaves the lists if it was the last one out. */
    method ReleaseToSpans(o: Addr, i: SpanId) returns (gone: bool)
      requires Valid() && i in value.cuts && OnceWith(value, [o]) && o != Null
      modifies this, memory
      ensures Valid() && OnlyLinks(old(memory.links), memory.links, [o])
      ensures var (c, freed) := Central.ReleaseToSpans(k, old(value), o, i);
        value == c && gone == freed.Some? && (gone ==> freed.value == [o] + old(value).cuts[i].objects)
    {
      hide Chain, ListsOk, OnceWith, Linked, SpansLinked, SlotsLinked, Central.ReleaseToSpans, Unlink;
      assert [o] + [] == [o];
      ReleaseShape(k, value, o, i);
      ReleaseLinks(k, memory.links, objects, refcount, slots, value, o, i);
      ReleaseOnce(k, value, o, i, []);
      FirstLinked(memory.links, objects, refcount, value, i);
      NullChain(memory.links, objects[i], value.cuts[i].objects);
      if objects[i] == Null {
        empty := Unlink(empty, i);
        nonempty := [i] + nonempty;
      }
      counter := counter + 1;
      ghost var c := value;
      value := Central.ReleaseToSpans(k, value, o, i).0;
      if refcount[i] - 1 == 0 {
        counter := counter - (k.pages * PageSize) / k.size;
        nonempty := Unlink(nonempty, i);
        numSpans := numSpans - 1;
        objects, refcount := objects - {i}, refcount - {i};
        return true;
      }
      memory.links := memory.links[o := objects[i]];
      objects, refcount := objects[i := o], refcount[i := refcount[i] - 1];
      return false;
    }

    /** Releases a chain object by object.  When a span has to go to the page heap the lock
        is dropped, so the loop stops there with the rest of the chain. */
    method ReleaseListToSpans(start: Addr, ghost chain: seq<Addr>, ghost t: Table, pm: map<PageId, SpanId>)
      returns (next: Addr, freed: Option<SpanId>, ghost rest: seq<Addr>)
      requires Valid() && OnceWith(value, chain) && Chain(memory.links, start, chain)
      requires forall o :: o in chain ==> PageOf(o) in pm && HomeFor(t, pm, o) && pm[PageOf(o)] in value.cuts
      modifies this, memory
      ensures Valid() && OnceWith(value, rest) && Chain(memory.links, next, rest)
      ensures var r := Central.ReleaseListToSpans(k, t, old(value), chain);
        value == r.list && rest == r.rest && freed == (if r.freed.Some? then Some(r.freed.value.0) else None)
    {
      hide Chain, ListsOk, OnceWith, Linked, Linking, Central.ReleaseToSpans, Central.ReleaseListToSpans, HomeFor;
      ghost var c := value;
      ReleaseNone(k, t, c);
      next, rest := start, chain;
      NullChain(memory.links, next, rest);
      while next != Null
        invariant Valid() && OnceWith(value, rest) && Chain(memory.links, next, rest) && (next == Null <==> rest == [])
        invariant forall o :: o in rest ==> PageOf(o) in pm && HomeFor(t, pm, o) && pm[PageOf(o)] in value.cuts
        invariant Central.ReleaseListToSpans(k, t, c, chain) == Central.ReleaseListToSpans(k, t, value, rest)
        decreases |rest|
      {
        ghost var tail, i, was := rest[1..], pm[PageOf(rest[0])], value;
        assert rest[0] in rest && forall x :: x in tail ==> x in rest;
        ReleaseStep(k, t, pm, value, rest);
        ReleaseKeys(k, value, rest[0], i);
        var gone, after := ReleaseFirst(next, rest, pm);
        if gone {
          return after, Some(pm[PageOf(next)]), tail;
        }
        assert value == Central.ReleaseToSpans(k, was, rest[0], i).0;
        assert value.cuts.Keys == was.cuts.Keys;
        forall x | x in tail ensures pm[PageOf(x)] in value.cuts {
          assert x in rest && pm[PageOf(x)] in was.cuts.Keys;
        }
        next, rest := after, tail;
      }
      ReleaseNone(k, t, value);
      return next, None, rest;
    }

    /** Releases the first object of a chain. */
    method ReleaseFirst(next: Addr, ghost rest: seq<Addr>, pm: map<PageId, SpanId>) returns (gone: bool, after: Addr)
      requires Valid() && rest != [] && OnceWith(value, rest) && Chain(memory.links, next, rest)
      requires PageOf(rest[0]) in pm && pm[PageOf(rest[0])] in value.cuts
      modifies this, memory
      ensures Valid() && OnceWith(value, rest[1..]) && Chain(memory.links, after, rest[1..]) && next == rest[0]
      ensures after == Null <==> rest[1..] == []
      ensures var (c, freed) := Central.ReleaseToSpans(k, old(value), rest[0], pm[PageOf(rest[0])]);
        value == c && gone == freed.Some?
    {
      hide Chain, ListsOk, OnceWith, Linked, Linking, Central.ReleaseToSpans;
      ghost var o, tail, before := rest[0], rest[1..], memory.links;
      assert rest == [o] + tail && o in rest;
      NotNull(before, next, rest);
      ChainDistinct(before, next, rest);
      assert o !in tail;
      ChainFrom(before, next, rest, 1);
      NullChain(before, before[next], tail);
      OnceLess(value, rest, [o]);
      ReleaseOnce(k, value, o, pm[PageOf(o)], tail);
      after := memory.links[next];
      gone := ReleaseToSpans(next, pm[PageOf(next)]);
      ChainFrame(before, memory.links, after, tail);
    }
  }

  lemma NotNull(links: Links, head: Addr, q: seq<Addr>)
    requires Chain(links, head, q) && q != []
    ensures head == q[0] && head in links && Null !in q
  {
    ChainDistinct(links, head, q);
  }

  lemma FirstLinked(links: Links, objects: map<SpanId, Addr>, refcount: map<SpanId, int>, c: CentralList, i: SpanId)
    requires SpansLinked(links, objects, refcount, c) && i in c.cuts
    ensures i in objects && i in refcount && Chain(links, objects[i], c.cuts[i].objects) && refcount[i] == c.cuts[i].refcount
  {
  }

  lemma EmptyChain(links: Links)
    ensures Chain(links, Null, [])
  {
  }

  /** One round of the fetch: either nothing is left, or `n` objects are those of one span and the rest. */
  lemma FetchStep(c: CentralList, n: int, hand: seq<Addr>)
    requires ListsOk(c) && Linked(c) && n >= 1 && OnceWith(c, hand)
    ensures var (q, c') := FetchFromOneSpans(c, n);
      && OnceWith(c', q + hand) && OnceWith(c', []) && ListsOk(c') && Linked(c')
      && (q == [] ==> FetchMany(c, n) == ([], c) && c' == c)
      && (q != [] ==> |q| <= n && FetchMany(c, n) == (FetchMany(c', n - |q|).0 + q, FetchMany(c', n - |q|).1))
  {
    hide ListsOk, Sum, SlotSum, Linked, FetchFromOneSpans;
    if c.nonempty == [] {
      FetchOneNone(c, n);
      assert [] + hand == hand;
    } else {
      FetchOnce(c, n, hand);
      FetchShape(c, n);
    }
    OnceLess(FetchFromOneSpans(c, n).1, FetchFromOneSpans(c, n).0 + hand, []);
  }

  lemma OnceLess(c: CentralList, q: seq<Addr>, r: seq<Addr>)
    requires OnceWith(c, q) && multiset(r) <= multiset(q)
    ensures OnceWith(c, r)
  {
    hide Kept;
    forall x ensures (Kept(c) + multiset(r))[x] <= 1 {
      assert (Kept(c) + multiset(q))[x] <= 1;
    }
  }

  lemma MoreFirst(a: seq<Addr>, b: seq<Addr>, c: seq<Addr>)
    ensures (a + b) + c == a + (b + c)
  {
  }

  lemma FetchNone(c: CentralList)
    requires Linked(c)
    ensures FetchMany(c, 0) == ([], c)
  {
  }

  lemma HandsApart(c: CentralList, r: seq<Addr>, q: seq<Addr>)
    requires OnceWith(c, r + q)
    ensures NoneOf(r, q) && NoneOf(q, r) && multiset(r) <= multiset(r + q)
  {
    hide Kept;
    assert multiset(r + q) == multiset(r) + multiset(q);
    forall o ensures !(o in r && o in q) {
      assert (Kept(c) + multiset(r + q))[o] <= 1;
    }
  }

  lemma NullChain(links: Links, head: Addr, q: seq<Addr>)
    requires Chain(links, head, q)
    ensures head == Null <==> q == []
  {
  }

  lemma PopOnce(c: CentralList)
    requires c.slots != [] && OnceWith(c, []) && ListsOk(c)
    ensures var (q, c') := PopSlot(c);
      OnceWith(c', q) && OnceWith(c', []) && ListsOk(c') && Linked(c')
  {
    hide Sum;
    var (q, c') := PopSlot(c);
    assert Kept(c') + multiset(q) == Kept(c) + multiset([]);
    OnceLess(c', q, []);
    LinkedOk(c');
  }

  lemma PushOnce(c: CentralList, q: seq<Addr>)
    requires OnceWith(c, q) && ListsOk(c)
    ensures OnceWith(PushSlot(c, q), []) && ListsOk(PushSlot(c, q)) && Linked(PushSlot(c, q))
  {
    hide Sum;
    var c' := PushSlot(c, q);
    assert c'.slots[..|c'.slots| - 1] == c.slots;
    assert Kept(c') + multiset([]) == Kept(c) + multiset(q);
    LinkedOk(c');
  }

  lemma AddOnce(c: CentralList, i: SpanId, q: seq<Addr>)
    requires OnceWith(c, q) && ListsOk(c) && i !in c.cuts && q != []
    ensures var c' := AddSpan(c, i, q);
      OnceWith(c', []) && ListsOk(c') && Linked(c')
  {
    hide Sum, SlotSum, ListsOk, Linked;
    var c' := AddSpan(c, i, q);
    AddSpanLists(c, i, q);
    LinkedOk(c');
    SumAdd(c.cuts, ObjectsOf, i, Cut(q, 0));
    assert Kept(c') + multiset([]) == Kept(c) + multiset(q);
  }

  lemma ReleaseOnce(k: Class, c: CentralList, o: Addr, i: SpanId, rest: seq<Addr>)
    requires k.Ok() && i in c.cuts && OnceWith(c, [o] + rest) && ListsOk(c)
    ensures var (c', gone) := ReleaseToSpans(k, c, o, i);
      OnceWith(c', rest) && ListsOk(c') && Linked(c')
  {
    hide Kept, ListsOk, Linked, ReleaseToSpans;
    ReleaseOneCounts(k, c, o, i);
    ReleaseOneLists(k, c, o, i);
    var (c', gone) := ReleaseToSpans(k, c, o, i);
    LinkedOk(c');
    assert multiset([o] + rest) == multiset{o} + multiset(rest);
    forall x ensures (Kept(c') + multiset(rest))[x] <= 1 {
      assert (Kept(c) + multiset([o] + rest))[x] <= 1;
      assert (Kept(c) + multiset{o})[x] == Kept(c)[x] + multiset{o}[x];
      if gone.Some? { assert (Kept(c') + multiset(gone.value))[x] == Kept(c')[x] + multiset(gone.value)[x]; }
    }
  }

  /** The links after one object has gone back. */
  lemma ReleaseLinks(k: Class, links: Links, objects: map<SpanId, Addr>, refcount: map<SpanId, int>,
          slots: seq<Entry>, c: CentralList, o: Addr, i: SpanId)
    requires SpansLinked(links, objects, refcount, c) && SlotsLinked(links, slots, c) && OnceWith(c, [o])
    requires k.Ok() && i in c.cuts && o != Null
    ensures var (c', gone) := ReleaseToSpans(k, c, o, i);
      && (gone.Some? ==> SpansLinked(links, objects - {i}, refcount - {i}, c') && SlotsLinked(links, slots, c'))
      && (gone.None? ==>
            SpansLinked(links[o := objects[i]], objects[i := o], refcount[i := refcount[i] - 1], c')
            && SlotsLinked(links[o := objects[i]], slots, c'))
  {
    hide OnceWith, Chain, Unlink;
    var (c', gone) := ReleaseToSpans(k, c, o, i);
    var links' := links[o := objects[i]];
    ListsStay(links, links', objects, refcount, slots, c, [o]);
    if gone.None? {
      PushChain(links', objects[i], o, c.cuts[i].objects);
    }
  }

  lemma PushChain(links: Links, head: Addr, o: Addr, q: seq<Addr>)
    requires Chain(links, head, q) && o != Null && o in links && links[o] == head
    ensures Chain(links, o, [o] + q)
  {
    assert ([o] + q)[1..] == q;
  }

  lemma AddLinks(links: Links, objects: map<SpanId, Addr>, refcount: map<SpanId, int>, slots: seq<Entry>,
          c: CentralList, i: SpanId, head: Addr, q: seq<Addr>)
    requires SpansLinked(links, objects, refcount, c) && SlotsLinked(links, slots, c) && Chain(links, head, q)
    ensures SpansLinked(links, objects[i := head], refcount[i := 0], AddSpan(c, i, q)) && SlotsLinked(links, slots, AddSpan(c, i, q))
  {
    hide Chain, ChainTo;
    var c' := AddSpan(c, i, q);
    forall j | j in c'.cuts
      ensures Chain(links, objects[i := head][j], c'.cuts[j].objects) && refcount[i := 0][j] == c'.cuts[j].refcount
    {
      assert j != i ==> c'.cuts[j] == c.cuts[j];
    }
    assert c'.slots == c.slots;
  }

  lemma ReleaseShape(k: Class, c: CentralList, o: Addr, i: SpanId)
    requires k.Ok() && i in c.cuts
    ensures var (c', gone) := ReleaseToSpans(k, c, o, i);
      var front := if c.cuts[i].objects == [] then [i] + c.nonempty else c.nonempty;
      && (gone.Some? <==> c.cuts[i].refcount == 1) && (gone.Some? ==> gone.value == [o] + c.cuts[i].objects)
      && c'.empty == (if c.cuts[i].objects == [] then Unlink(c.empty, i) else c.empty)
      && c'.nonempty == (if gone.Some? then Unlink(front, i) else front)
      && c'.counter == c.counter + 1 - (if gone.Some? then (k.pages * PageSize) / k.size else 0)
      && c'.numSpans == c.numSpans - (if gone.Some? then 1 else 0)
      && c'.slots == c.slots && c'.cacheSize == c.cacheSize && c'.maxCache == c.maxCache
  {
    hide Unlink;
  }

  /** The page map leads from the object to the span that owns its page. */
  ghost predicate HomeFor(t: Table, pm: map<PageId, SpanId>, o: Addr) {
    PageOf(o) in pm && Owner(t, PageOf(o)) == Some(pm[PageOf(o)])
  }

  lemma ReleaseKeys(k: Class, c: CentralList, o: Addr, i: SpanId)
    requires k.Ok() && i in c.cuts
    ensures var (c', gone) := ReleaseToSpans(k, c, o, i);
      gone.None? ==> c'.cuts.Keys == c.cuts.Keys
  {
  }

  lemma ReleaseNone(k: Class, t: Table, c: CentralList)
    requires k.Ok()
    ensures ReleaseListToSpans(k, t, c, []) == Released(c, [], None)
  {
  }

  lemma ReleaseStep(k: Class, t: Table, pm: map<PageId, SpanId>, c: CentralList, rest: seq<Addr>)
    requires k.Ok() && rest != [] && HomeFor(t, pm, rest[0]) && pm[PageOf(rest[0])] in c.cuts
    ensures PageOf(rest[0]) in pm
    ensures var i := pm[PageOf(rest[0])];
      var (c', gone) := ReleaseToSpans(k, c, rest[0], i);
      ReleaseListToSpans(k, t, c, rest) ==
      if gone.Some? then Released(c', rest[1..], Some((i, gone.value))) else ReleaseListToSpans(k, t, c', rest[1..])
  {
    hide ReleaseToSpans, Owner;
  }

  lemma ResizeOnce(c: CentralList, size: int)
    ensures ListsOk(c) ==> ListsOk(c.(cacheSize := size))
    ensures Linked(c) ==> Linked(c.(cacheSize := size))
    ensures OnceWith(c, []) ==> OnceWith(c.(cacheSize := size), [])
  {
    hide Sum, SlotSum;
  }

  lemma ResizeOnceWith(c: CentralList, q: seq<Addr>, size: int)
    requires OnceWith(c, q)
    ensures OnceWith(c.(cacheSize := size), q) && OnceWith(c.(cacheSize := size), [])
    ensures ListsOk(c) ==> ListsOk(c.(cacheSize := size))
    ensures Linked(c) ==> Linked(c.(cacheSize := size))
  {
    hide Sum, SlotSum;
    OnceLess(c, q, []);
  }
}
