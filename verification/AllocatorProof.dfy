/** Every step of the system keeps its invariant. */
module AllocatorProof {
  import opened Spans
  import opened Cells
  import opened Central
  import opened Allocator

  // ---------------------------------------------------------------- who holds what

  lemma TypedFrom(cfg: Config, s: State)
    requires Sized(cfg, s) && PcsOk(cfg, s) && CentralsOk(cfg, s)
    ensures Typed(cfg, s)
  {
    hide CellsOf, CutsOk, CountsOk, SlotsOk, AllOut;
    forall u | 0 <= u < |s.threads| ensures PcTyped(cfg, s.threads[u].pc) {
      assert PcOk(cfg, s, s.threads[u].pc);
    }
    forall k | IsClass(cfg, k) ensures Linked(s.central[k]) {
      assert CentralOk(cfg[k], s.live, k, s.central[k]);
      LinkedOk(s.central[k]);
    }
  }

  lemma InvPc(cfg: Config, s: State, t: int)
    requires Inv(cfg, s) && 0 <= t < |s.threads|
    ensures PcOk(cfg, s, s.threads[t].pc)
  {
    hide SpansOk, Balanced, CentralsOk, Homed, Mutex, PcOk;
  }

  lemma InvCentral(cfg: Config, s: State, k: int)
    requires Inv(cfg, s) && IsClass(cfg, k)
    ensures CentralOk(cfg[k], s.live, k, s.central[k])
  {
    hide SpansOk, Balanced, PcsOk, Homed, Mutex, CentralOk;
  }

  lemma InvBalance(cfg: Config, s: State, k: int)
    requires Inv(cfg, s) && IsClass(cfg, k)
    ensures Held(s, k) == Full(cfg, s.live, k)
  {
    hide SpansOk, CentralsOk, PcsOk, Homed, Mutex, Held, Full;
  }

  lemma InvOnce(cfg: Config, s: State, k: int, o: Addr)
    requires Inv(cfg, s) && IsClass(cfg, k)
    ensures Held(s, k)[o] <= 1
  {
    hide SpansOk, CentralsOk, PcsOk, Homed, Mutex, Held, Full, Balanced;
    InvBalance(cfg, s, k);
    FullOnce(cfg, s.live, k, o);
  }

  lemma CarriedHeld(cfg: Config, s: State, t: int, i: SpanId)
    requires Inv(cfg, s) && 0 <= t < |s.threads| && Carried(s.threads[t].pc) == Some(i)
    ensures i in s.live && IsClass(cfg, s.live[i].sizeclass)
    ensures var k := s.live[i].sizeclass;
      && SpanOk(cfg[k], s.live, k, i) && i !in s.central[k].cuts
      && multiset(CellsOf(cfg[k], s.live[i].start)) <= ThreadHeld(s.threads[t], k)
  {
    hide Inv, CellsOf;
    InvPc(cfg, s, t);
  }

  /** Two threads never carry the same span: its cells would be in two places. */
  lemma OneCarrier(cfg: Config, s: State, t: int, u: int, i: SpanId)
    requires Inv(cfg, s) && 0 <= t < |s.threads| && 0 <= u < |s.threads|
    requires Carried(s.threads[t].pc) == Some(i) && Carried(s.threads[u].pc) == Some(i)
    ensures t == u
  {
    hide SpansOk, Balanced, CentralsOk, PcsOk, Homed, Mutex, CellsOf, Held, Carried, ThreadHeld, ThreadSum;
    CarriedHeld(cfg, s, t, i);
    CarriedHeld(cfg, s, u, i);
    var k := s.live[i].sizeclass;
    CellsCount(cfg[k], s.live[i].start);
    var o := CellsOf(cfg[k], s.live[i].start)[0];
    assert o in multiset(CellsOf(cfg[k], s.live[i].start));
    InvOnce(cfg, s, k, o);
    if t != u {
      TwoIsTooMany(s, if t < u then t else u, if t < u then u else t, k, o);
    }
  }

  lemma TwoIsTooMany(s: State, t: int, u: int, k: int, o: Addr)
    requires 0 <= t < u < |s.threads| && 0 <= k < |s.client| && 0 <= k < |s.central|
    requires o in ThreadHeld(s.threads[t], k) && o in ThreadHeld(s.threads[u], k)
    ensures Held(s, k)[o] >= 2
  {
    hide Kept, ThreadHeld;
    ThreadSumTwo(s.threads, t, u, k);
  }

  lemma HeldHas(s: State, t: int, k: int, o: Addr)
    requires 0 <= t < |s.threads| && 0 <= k < |s.client| && 0 <= k < |s.central|
    ensures Held(s, k)[o] >= s.client[k][o] + ThreadHeld(s.threads[t], k)[o] + Kept(s.central[k])[o]
  {
    hide Kept, ThreadHeld;
    ThreadSumHas(s.threads, t, k);
  }

  /** An object outside any carried span belongs to a span on the lists. */
  lemma HomeOnLists(cfg: Config, s: State, t: int, k: int, o: Addr)
    requires Inv(cfg, s) && 0 <= t < |s.threads| && IsClass(cfg, k) && Carried(s.threads[t].pc).None?
    requires o in ThreadHeld(s.threads[t], k) || o in Kept(s.central[k]) || o in s.client[k]
    ensures HomeIn(cfg[k], s.live, s.central[k], o)
    ensures exists i :: SpanOk(cfg[k], s.live, k, i) && o in CellsOf(cfg[k], s.live[i].start)
  {
    hide Balanced, CentralsOk, PcsOk, Mutex, CellsOf, Held, Full, Kept, ThreadHeld, ThreadSum;
    HeldHas(s, t, k, o);
    InvBalance(cfg, s, k);
    InvOnce(cfg, s, k, o);
    FullHome(cfg, s.live, k, o);
    var i :| SpanOk(cfg[k], s.live, k, i) && o in CellsOf(cfg[k], s.live[i].start);
    if i !in s.central[k].cuts {
      assert SomeoneCarries(s, i);
      var u :| 0 <= u < |s.threads| && Carried(s.threads[u].pc) == Some(i);
      CarriedHeld(cfg, s, u, i);
      assert o in multiset(CellsOf(cfg[k], s.live[i].start));
      if o in ThreadHeld(s.threads[t], k) {
        TwoIsTooMany(s, if t < u then t else u, if t < u then u else t, k, o);
      } else {
        HeldHas(s, u, k, o);
      }
    }
  }

  // ---------------------------------------------------------------- steps that leave the spans alone

  /** The part of class `k` a step of thread `t` may move around. */
  ghost function Share(s: State, t: int, k: int): multiset<Addr>
    requires 0 <= t < |s.threads| && 0 <= k < |s.client| && 0 <= k < |s.central|
  {
    s.client[k] + ThreadHeld(s.threads[t], k) + Kept(s.central[k])
  }

  /** `s'` differs from `s` only in thread `t` and in class `cl`. */
  ghost predicate OnlyAt(s: State, s': State, t: int, cl: int) {
    && s'.live == s.live
    && |s'.threads| == |s.threads| && |s'.central| == |s.central| && |s'.client| == |s.client|
    && 0 <= t < |s.threads| && 0 <= cl < |s.central|
    && s'.threads == s.threads[t := s'.threads[t]]
    && s'.central == s.central[cl := s'.central[cl]]
    && (forall k :: 0 <= k < |s.client| && k != cl ==> s'.client[k] == s.client[k])
  }

  ghost predicate Moves(cfg: Config, s: State, s': State, t: int, cl: int)
    requires Sized(cfg, s) && OnlyAt(s, s', t, cl) && IsClass(cfg, cl)
  {
    forall k :: IsClass(cfg, k) ==> Share(s', t, k) == Share(s, t, k)
  }

  /** Spans enter and leave the lists of `cl` only through the hand of `t`. */
  ghost predicate SpansPass(s: State, s': State, t: int, cl: int)
    requires OnlyAt(s, s', t, cl)
  {
    && (forall i :: i in s'.central[cl].cuts ==> i in s.central[cl].cuts || Carried(s.threads[t].pc) == Some(i))
    && (forall i :: i in s.central[cl].cuts ==> i in s'.central[cl].cuts || Carried(s'.threads[t].pc) == Some(i))
    && (Carried(s.threads[t].pc).Some? ==>
          Carried(s.threads[t].pc).value in s'.central[cl].cuts || Carried(s'.threads[t].pc) == Carried(s.threads[t].pc))
  }

  lemma MovesBalance(cfg: Config, s: State, s': State, t: int, cl: int)
    requires Inv(cfg, s) && OnlyAt(s, s', t, cl) && IsClass(cfg, cl) && |s'.threads[t].lists| == |cfg|
    requires Moves(cfg, s, s', t, cl)
    ensures Sized(cfg, s') && Balanced(cfg, s')
  {
    hide Kept, Full, ThreadHeld, ThreadSum, Mutex, Homed, PcsOk, CentralsOk, SpansOk;
    forall k | IsClass(cfg, k) ensures Held(s', k) == Full(cfg, s'.live, k) {
      ThreadSumUpdate(s.threads, t, s'.threads[t], k);
      forall o ensures Held(s', k)[o] == Held(s, k)[o] {
        assert Share(s', t, k)[o] == Share(s, t, k)[o];
        assert (ThreadSum(s'.threads, k) + ThreadHeld(s.threads[t], k))[o]
            == (ThreadSum(s.threads, k) + ThreadHeld(s'.threads[t], k))[o];
      }
      assert Held(s', k) == Held(s, k);
    }
  }

  lemma OthersPc(cfg: Config, s: State, s': State, t: int, cl: int)
    requires Inv(cfg, s) && OnlyAt(s, s', t, cl) && IsClass(cfg, cl)
    requires SpansPass(s, s', t, cl) && PcOk(cfg, s', s'.threads[t].pc)
    ensures PcsOk(cfg, s')
  {
    hide SpansOk, Balanced, CentralsOk, Homed, Mutex, CellsOf, SpanOk;
    forall u | 0 <= u < |s'.threads| ensures PcOk(cfg, s', s'.threads[u].pc) {
      if u != t {
        InvPc(cfg, s, u);
        if Carried(s.threads[u].pc).Some? {
          var i := Carried(s.threads[u].pc).value;
          if Carried(s.threads[t].pc) == Some(i) { OneCarrier(cfg, s, t, u, i); }
        }
      }
    }
  }

  lemma StillHomed(cfg: Config, s: State, s': State, t: int, cl: int)
    requires Inv(cfg, s) && OnlyAt(s, s', t, cl) && IsClass(cfg, cl) && Sized(cfg, s')
    requires SpansPass(s, s', t, cl)
    requires Carried(s.threads[t].pc).Some? ==> s.live[Carried(s.threads[t].pc).value].sizeclass == cl
    ensures Homed(cfg, s')
  {
    hide Balanced, CentralsOk, PcsOk, Mutex, SpansOk;
    forall i | i in s'.live && IsClass(cfg, s'.live[i].sizeclass)
      ensures i in s'.central[s'.live[i].sizeclass].cuts || SomeoneCarries(s', i)
    {
      if i !in s.central[s.live[i].sizeclass].cuts {
        assert SomeoneCarries(s, i);
        var u :| 0 <= u < |s.threads| && Carried(s.threads[u].pc) == Some(i);
        assert u != t ==> Carried(s'.threads[u].pc) == Some(i);
      }
      assert Carried(s'.threads[t].pc) == Some(i) ==> SomeoneCarries(s', i);
    }
  }

  lemma LocalKeeps(cfg: Config, s: State, s': State, t: int, cl: int)
    requires Inv(cfg, s) && OnlyAt(s, s', t, cl) && IsClass(cfg, cl)
    requires |s'.threads[t].lists| == |cfg| && !s'.threads[t].has
    requires Moves(cfg, s, s', t, cl) && SpansPass(s, s', t, cl)
    requires Carried(s.threads[t].pc).Some? ==>
               Carried(s.threads[t].pc).value in s.live && s.live[Carried(s.threads[t].pc).value].sizeclass == cl
    requires PcOk(cfg, s', s'.threads[t].pc) && CentralOk(cfg[cl], s.live, cl, s'.central[cl])
    ensures Inv(cfg, s')
  {
    hide PcOk, CentralOk, Moves, SpansPass, SpansOk, Balanced, PcsOk, Homed, Carried;
    MovesBalance(cfg, s, s', t, cl);
    OthersPc(cfg, s, s', t, cl);
    StillHomed(cfg, s, s', t, cl);
    TypedFrom(cfg, s');
  }

  // ---------------------------------------------------------------- releasing a chain

  lemma DropReady(cfg: Config, s: State, t: int, cl: int, c: CentralList, chain: seq<Addr>)
    requires Inv(cfg, s) && 0 <= t < |s.threads| && IsClass(cfg, cl) && Carried(s.threads[t].pc).None?
    requires c.cuts == s.central[cl].cuts
    requires Kept(c) + multiset(chain) <= Kept(s.central[cl]) + Hand(s.threads[t].pc, cl)
    ensures Once(Kept(c) + multiset(chain))
    ensures forall o :: o in chain ==> HomeIn(cfg[cl], s.live, c, o)
  {
    hide SpansOk, Balanced, CentralsOk, PcsOk, Homed, Mutex, Kept, Hand, Carried, Held, HomeIn;
    forall o ensures (Kept(c) + multiset(chain))[o] <= 1 {
      InvOnce(cfg, s, cl, o);
      HeldHas(s, t, cl, o);
      assert (Kept(c) + multiset(chain))[o] <= (Kept(s.central[cl]) + Hand(s.threads[t].pc, cl))[o];
      assert Hand(s.threads[t].pc, cl)[o] <= ThreadHeld(s.threads[t], cl)[o];
    }
    forall o | o in chain ensures HomeIn(cfg[cl], s.live, c, o) {
      assert (Kept(c) + multiset(chain))[o] >= 1;
      assert Hand(s.threads[t].pc, cl)[o] <= ThreadHeld(s.threads[t], cl)[o];
      HomeOnLists(cfg, s, t, cl, o);
      SameHome(cfg[cl], s.live, s.central[cl], c, o);
    }
  }

  lemma SameHome(k: Class, live: Table, c: CentralList, c': CentralList, o: Addr)
    requires k.Ok() && c.cuts == c'.cuts && HomeIn(k, live, c, o)
    ensures HomeIn(k, live, c', o)
  {
    hide CellsOf;
  }

  lemma DropMoves(cfg: Config, s: State, s': State, t: int, cl: int, k: int)
    requires Sized(cfg, s) && OnlyAt(s, s', t, cl) && IsClass(cfg, cl) && IsClass(cfg, k)
    requires s'.client == s.client && s'.threads[t].lists == s.threads[t].lists
    requires Kept(s'.central[k]) + Hand(s'.threads[t].pc, k) == Kept(s.central[k]) + Hand(s.threads[t].pc, k)
    ensures Share(s', t, k) == Share(s, t, k)
  {
    hide Kept, Hand;
    forall o ensures Share(s', t, k)[o] == Share(s, t, k)[o] {
      assert (Kept(s'.central[k]) + Hand(s'.threads[t].pc, k))[o] == (Kept(s.central[k]) + Hand(s.threads[t].pc, k))[o];
    }
  }

  ghost function DropPc(cl: int, r: Released, after: After): Pc {
    if r.freed.Some? then Drain(cl, r.freed.value.0, r.freed.value.1, r.rest, after) else Finish(after)
  }

  lemma DropHand(cl: int, r: Released, after: After, c: CentralList, chain: seq<Addr>)
    requires r.freed.None? ==> Kept(r.list) == Kept(c) + multiset(chain)
    requires r.freed.Some? ==> Kept(r.list) + multiset(r.freed.value.1) + multiset(r.rest) == Kept(c) + multiset(chain)
    ensures Kept(r.list) + Hand(DropPc(cl, r, after), cl) == Kept(c) + multiset(chain) + AfterHand(after, cl)
    ensures forall k :: k != cl ==> Hand(DropPc(cl, r, after), k) == AfterHand(after, k)
  {
    hide Kept, AfterHand, Finish;
    if r.freed.None? {
      FinishHandAll(after);
    } else {
      Regroup(Kept(r.list), multiset(r.freed.value.1), multiset(r.rest), AfterHand(after, cl));
    }
  }

  lemma Regroup(a: multiset<Addr>, b: multiset<Addr>, c: multiset<Addr>, d: multiset<Addr>)
    ensures a + ((b + c) + d) == (a + b + c) + d
  {
  }

  lemma DropPcOk(cfg: Config, s: State, cl: int, c: CentralList, chain: seq<Addr>, r: Released, after: After, s': State)
    requires Sized(cfg, s) && IsClass(cfg, cl) && AfterOk(cfg, after)
    requires ReleaseOk(cfg[cl], s.live, cl, c, chain, r)
    requires s'.live == s.live && |s'.central| == |cfg| && s'.central[cl] == r.list
    ensures PcOk(cfg, s', DropPc(cl, r, after))
    ensures r.freed.None? ==> Carried(DropPc(cl, r, after)).None? && r.list.cuts.Keys == c.cuts.Keys
    ensures r.freed.Some? ==>
      Carried(DropPc(cl, r, after)) == Some(r.freed.value.0) && r.list.cuts.Keys == c.cuts.Keys - {r.freed.value.0}
  {
    hide CellsOf, Kept, CentralOk;
    FinishHandAll(after);
  }

  /** Releasing `chain`, which thread `t` holds or has just popped from a slot. */
  lemma DropRunKeeps(cfg: Config, s: State, t: int, cl: int, c: CentralList, chain: seq<Addr>, after: After)
    requires Inv(cfg, s) && 0 <= t < |s.threads| && IsClass(cfg, cl) && Carried(s.threads[t].pc).None?
    requires CentralOk(cfg[cl], s.live, cl, c) && c.cuts == s.central[cl].cuts && AfterOk(cfg, after)
    requires Kept(c) + multiset(chain) + AfterHand(after, cl) == Kept(s.central[cl]) + Hand(s.threads[t].pc, cl)
    requires forall k :: IsClass(cfg, k) && k != cl ==> Hand(s.threads[t].pc, k) == AfterHand(after, k)
    ensures Inv(cfg, DropRun(cfg, WithCentral(s, cl, c), t, cl, chain, after))
  {
    hide SpansOk, Balanced, CentralsOk, PcsOk, Homed, Mutex, Kept, CellsOf, ReleaseListToSpans, CentralOk, Share, Hand, Carried,
      AfterHand, DropPc, PcOk, AfterOk;
    DropReady(cfg, s, t, cl, c, chain);
    InvTiled(cfg, s);
    ReleaseListKeeps(cfg[cl], s.live, cl, c, chain);
    var r := ReleaseListToSpans(cfg[cl], s.live, c, chain);
    var s' := WithPc(WithCentral(s, cl, r.list), t, DropPc(cl, r, after));
    DropHand(cl, r, after, c, chain);
    DropPcOk(cfg, s, cl, c, chain, r, after, s');
    forall k | IsClass(cfg, k) ensures Share(s', t, k) == Share(s, t, k) {
      DropMoves(cfg, s, s', t, cl, k);
    }
    LocalKeeps(cfg, s, s', t, cl);
    DropRunIs(cfg, s, t, cl, c, chain, after);
  }

  lemma DropRunIs(cfg: Config, s: State, t: int, cl: int, c: CentralList, chain: seq<Addr>, after: After)
    requires ConfigOk(cfg) && 0 <= t < |s.threads| && 0 <= cl < |cfg| == |s.central|
    ensures DropRun(cfg, WithCentral(s, cl, c), t, cl, chain, after)
         == var r := ReleaseListToSpans(cfg[cl], s.live, c, chain); WithPc(WithCentral(s, cl, r.list), t, DropPc(cl, r, after))
  {
    hide ReleaseListToSpans;
    var r := ReleaseListToSpans(cfg[cl], s.live, c, chain);
    assert s.central[cl := c][cl := r.list] == s.central[cl := r.list];
  }

  lemma FinishHandAll(after: After)
    ensures forall k :: Hand(Finish(after), k) == AfterHand(after, k)
    ensures Carried(Finish(after)).None?
  {
  }

  lemma InvTiled(cfg: Config, s: State)
    requires Inv(cfg, s)
    ensures Tiled(s.live)
  {
    hide Balanced, CentralsOk, PcsOk, Homed, Mutex, Tiled;
  }

  // ---------------------------------------------------------------- the other steps with a class lock

  /** A step that edits class `cl` (without touching its set of spans) and the hand of `t`. */
  lemma CentralMoveKeeps(cfg: Config, s: State, t: int, cl: int, c: CentralList, pc: Pc)
    requires Inv(cfg, s) && 0 <= t < |s.threads| && IsClass(cfg, cl)
    requires Carried(s.threads[t].pc).None? && Carried(pc).None? && PcOk(cfg, s, pc)
    requires CentralOk(cfg[cl], s.live, cl, c) && c.cuts.Keys == s.central[cl].cuts.Keys
    requires Kept(c) + Hand(pc, cl) == Kept(s.central[cl]) + Hand(s.threads[t].pc, cl)
    requires forall k :: IsClass(cfg, k) && k != cl ==> Hand(pc, k) == Hand(s.threads[t].pc, k)
    ensures Inv(cfg, WithPc(WithCentral(s, cl, c), t, pc))
  {
    hide SpansOk, Balanced, CentralsOk, PcsOk, Homed, Mutex, Kept, CellsOf, CentralOk, Share, Hand;
    var s' := WithPc(WithCentral(s, cl, c), t, pc);
    forall k | IsClass(cfg, k) ensures Share(s', t, k) == Share(s, t, k) {
      DropMoves(cfg, s, s', t, cl, k);
    }
    LocalKeeps(cfg, s, s', t, cl);
  }

  lemma PcMoveKeeps(cfg: Config, s: State, t: int, cl: int, pc: Pc)
    requires Inv(cfg, s) && 0 <= t < |s.threads| && IsClass(cfg, cl)
    requires Carried(s.threads[t].pc).None? && Carried(pc).None? && PcOk(cfg, s, pc)
    requires forall k :: IsClass(cfg, k) ==> Hand(pc, k) == Hand(s.threads[t].pc, k)
    ensures Inv(cfg, WithPc(s, t, pc))
  {
    hide SpansOk, Balanced, CentralsOk, PcsOk, Homed, Mutex, Kept, CellsOf, CentralOk, Hand, Carried, PcOk;
    InvCentral(cfg, s, cl);
    CentralMoveKeeps(cfg, s, t, cl, s.central[cl], pc);
    assert WithCentral(s, cl, s.central[cl]) == s;
  }

  lemma DeliverShare(s: State, s': State, t: int, cl: int, chain: seq<Addr>)
    requires OnlyAt(s, s', t, cl) && 0 <= cl < |s.client| && 0 <= cl < |s.threads[t].lists| && chain != []
    requires s'.client[cl] == s.client[cl] + multiset{chain[0]}
    requires s'.threads[t] == Thread(s.threads[t].lists[cl := chain[1..] + s.threads[t].lists[cl]], Idle, false)
    requires Kept(s'.central[cl]) + multiset(chain) == Kept(s.central[cl]) + Hand(s.threads[t].pc, cl)
    ensures Share(s', t, cl) == Share(s, t, cl)
  {
    hide Kept, Hand;
    IdleHand(cl);
    var was, tail := s.threads[t].lists[cl], chain[1..];
    assert chain == [chain[0]] + tail;
    assert multiset(tail + was) == multiset(tail) + multiset(was);
    forall o ensures Share(s', t, cl)[o] == Share(s, t, cl)[o] {
      assert (Kept(s'.central[cl]) + multiset(chain))[o] == (Kept(s.central[cl]) + Hand(s.threads[t].pc, cl))[o];
      assert multiset(chain)[o] == multiset{chain[0]}[o] + multiset(tail)[o];
    }
  }

  lemma IdleHand(k: int)
    ensures Hand(Idle, k) == multiset{} && Carried(Idle).None?
  {
  }

  /** RemoveRange ends: the chain fetched goes to the caller and its thread list. */
  lemma DeliverKeeps(cfg: Config, s: State, t: int, cl: int, c: CentralList, chain: seq<Addr>)
    requires Inv(cfg, s) && 0 <= t < |s.threads| && IsClass(cfg, cl)
    requires CentralOk(cfg[cl], s.live, cl, c)
    requires c.cuts.Keys == s.central[cl].cuts.Keys + (if Carried(s.threads[t].pc).Some? then {Carried(s.threads[t].pc).value} else {})
    requires Carried(s.threads[t].pc).Some? ==>
               Carried(s.threads[t].pc).value in s.live && s.live[Carried(s.threads[t].pc).value].sizeclass == cl
    requires Kept(c) + multiset(chain) == Kept(s.central[cl]) + Hand(s.threads[t].pc, cl)
    requires forall k :: IsClass(cfg, k) && k != cl ==> Hand(s.threads[t].pc, k) == multiset{}
    ensures Inv(cfg, Deliver(WithCentral(s, cl, c), t, cl, chain))
  {
    hide SpansOk, Balanced, CentralsOk, PcsOk, Homed, Mutex, Kept, CellsOf, CentralOk, Share, Hand, Carried;
    var s' := Deliver(WithCentral(s, cl, c), t, cl, chain);
    forall k | IsClass(cfg, k) ensures Share(s', t, k) == Share(s, t, k) {
      IdleHand(k);
      if k == cl && chain != [] {
        DeliverShare(s, s', t, cl, chain);
      } else if k == cl {
        DropMoves(cfg, s, s', t, cl, k);
      } else {
        DeliverOther(s, s', t, cl, k);
      }
    }
    LocalKeeps(cfg, s, s', t, cl);
  }

  lemma DeliverOther(s: State, s': State, t: int, cl: int, k: int)
    requires OnlyAt(s, s', t, cl) && 0 <= k < |s.client| && 0 <= k < |s.central| && k != cl
    requires |s'.threads[t].lists| == |s.threads[t].lists| && (k < |s.threads[t].lists| ==> s'.threads[t].lists[k] == s.threads[t].lists[k])
    requires Hand(s'.threads[t].pc, k) == Hand(s.threads[t].pc, k)
    ensures Share(s', t, k) == Share(s, t, k)
  {
    hide Kept, Hand;
  }

  lemma RunRemoveKeeps(cfg: Config, s: State, t: int, cl: int, n: int)
    requires Inv(cfg, s) && 0 <= t < |s.threads| && s.threads[t].pc == Remove(cl, n)
    requires IsClass(cfg, cl) && n >= 1
    ensures Inv(cfg, RunRemove(cfg, s, t, cl, n))
  {
    hide SpansOk, Balanced, CentralsOk, PcsOk, Homed, Mutex, Kept, CellsOf, FetchMany, Linked, Deliver, CutsOk, ListsOk, CountsOk, SlotsOk;
    InvCentral(cfg, s, cl);
    var c := s.central[cl];
    if n == cfg[cl].batch && c.slots != [] {
      PopSlotKeeps(cfg[cl], s.live, cl, c);
      var (chain, c') := PopSlot(c);
      DeliverKeeps(cfg, s, t, cl, c', chain);
    } else {
      LinkedOk(c);
      FetchKeeps(cfg[cl], s.live, cl, c, n);
      var (chain, c') := FetchMany(c, n);
      if chain == [] {
        PcMoveKeeps(cfg, s, t, cl, Ask(cl, n));
      } else {
        DeliverKeeps(cfg, s, t, cl, c', chain);
      }
    }
  }

  lemma RunCarryKeeps(cfg: Config, s: State, t: int, cl: int, n: int, got: Option<(SpanId, seq<Addr>)>)
    requires Inv(cfg, s) && 0 <= t < |s.threads| && s.threads[t].pc == Carry(cl, n, got)
    requires PcOk(cfg, s, s.threads[t].pc) && IsClass(cfg, cl) && n >= 1
    ensures Inv(cfg, RunCarry(cfg, s, t, cl, n, got))
  {
    hide SpansOk, Balanced, CentralsOk, PcsOk, Homed, Mutex, Kept, CellsOf, FetchMany, Linked, Deliver, CutsOk, ListsOk, CountsOk, SlotsOk, AddSpan;
    InvCentral(cfg, s, cl);
    var c := s.central[cl];
    if got.Some? {
      var (i, cells) := got.value;
      AddSpanKeeps(cfg[cl], s.live, cl, c, i, cells);
      PopulateKeeps(cfg[cl], s.live, cl, c, i, cells, n);
      var (chain, c') := FetchMany(AddSpan(c, i, cells), n);
      DeliverKeeps(cfg, s, t, cl, c', chain);
    } else {
      LinkedOk(c);
      FetchKeeps(cfg[cl], s.live, cl, c, n);
      var (chain, c') := FetchMany(c, n);
      DeliverKeeps(cfg, s, t, cl, c', chain);
    }
  }

  lemma SecondTryKeeps(cfg: Config, s: State, t: int, cl: int, chain: seq<Addr>, ch: Choice)
    requires Inv(cfg, s) && 0 <= t < |s.threads| && IsClass(cfg, cl) && |chain| == cfg[cl].batch
    requires s.threads[t].pc == Insert(cl, chain) || (s.threads[t].pc.Back? && s.threads[t].pc.cl == cl && s.threads[t].pc.chain == chain)
    requires Eligible(cfg, cl, ch.second)
    ensures Inv(cfg, SecondTry(cfg, s, t, cl, chain, ch))
  {
    hide SpansOk, Balanced, CentralsOk, PcsOk, Homed, Mutex, Kept, CellsOf, CentralOk, DropRun;
    if ch.second.Some? {
      PcMoveKeeps(cfg, s, t, cl, Evict(cl, chain, ch.second.value, true));
    } else {
      DropOwn(cfg, s, t, cl, chain);
    }
  }

  /** Releasing the chain the thread brought. */
  lemma DropOwn(cfg: Config, s: State, t: int, cl: int, chain: seq<Addr>)
    requires Inv(cfg, s) && 0 <= t < |s.threads| && IsClass(cfg, cl)
    requires s.threads[t].pc == Insert(cl, chain) || (s.threads[t].pc.Back? && s.threads[t].pc.cl == cl && s.threads[t].pc.chain == chain)
    ensures Inv(cfg, DropRun(cfg, s, t, cl, chain, Done))
  {
    hide SpansOk, Balanced, CentralsOk, PcsOk, Homed, Mutex, Kept, CellsOf, CentralOk, DropRun;
    InvCentral(cfg, s, cl);
    DropRunKeeps(cfg, s, t, cl, s.central[cl], chain, Done);
    assert WithCentral(s, cl, s.central[cl]) == s;
  }

  lemma PushKeeps(cfg: Config, s: State, t: int, cl: int, chain: seq<Addr>, size: int)
    requires Inv(cfg, s) && 0 <= t < |s.threads| && IsClass(cfg, cl) && |chain| == cfg[cl].batch
    requires s.threads[t].pc == Insert(cl, chain) || (s.threads[t].pc.Back? && s.threads[t].pc.cl == cl && s.threads[t].pc.chain == chain)
    requires |s.central[cl].slots| < size <= s.central[cl].maxCache
    ensures Inv(cfg, WithPc(WithCentral(s, cl, PushSlot(s.central[cl].(cacheSize := size), chain)), t, Idle))
  {
    hide SpansOk, Balanced, CentralsOk, PcsOk, Homed, Mutex, Kept, CellsOf, CentralOk;
    InvCentral(cfg, s, cl);
    var c := s.central[cl].(cacheSize := size);
    ResizeKeeps(cfg[cl], s.live, cl, s.central[cl], size);
    PushSlotKeeps(cfg[cl], s.live, cl, c, chain);
    CentralMoveKeeps(cfg, s, t, cl, PushSlot(c, chain), Idle);
  }

  lemma CacheRange(cfg: Config, s: State, cl: int)
    requires Inv(cfg, s) && IsClass(cfg, cl)
    ensures 0 <= |s.central[cl].slots| <= s.central[cl].cacheSize <= s.central[cl].maxCache
    ensures forall j :: 0 <= j < |s.central[cl].slots| ==> |s.central[cl].slots[j]| == cfg[cl].batch
  {
    hide SpansOk, Balanced, CentralsOk, PcsOk, Homed, Mutex, CutsOk, ListsOk, CountsOk, AllOut;
    InvCentral(cfg, s, cl);
  }

  lemma RunInsertKeeps(cfg: Config, s: State, t: int, cl: int, chain: seq<Addr>, ch: Choice)
    requires Inv(cfg, s) && 0 <= t < |s.threads| && s.threads[t].pc == Insert(cl, chain) && IsClass(cfg, cl)
    requires ChoiceOk(cfg, s, s.threads[t].pc, ch)
    ensures Inv(cfg, RunInsert(cfg, s, t, cl, chain, ch))
  {
    hide SpansOk, Balanced, CentralsOk, PcsOk, Homed, Mutex, Kept, CellsOf, CentralOk, DropRun, SecondTry;
    var c := s.central[cl];
    CacheRange(cfg, s, cl);
    if |chain| != cfg[cl].batch || (|c.slots| >= c.cacheSize && c.cacheSize == c.maxCache) {
      DropOwn(cfg, s, t, cl, chain);
    } else if |c.slots| < c.cacheSize {
      PushKeeps(cfg, s, t, cl, chain, c.cacheSize);
    } else if ch.first.Some? {
      PcMoveKeeps(cfg, s, t, cl, Evict(cl, chain, ch.first.value, false));
    } else {
      SecondTryKeeps(cfg, s, t, cl, chain, ch);
    }
  }

  lemma RunEvictKeeps(cfg: Config, s: State, t: int, cl: int, chain: seq<Addr>, victim: int, force: bool)
    requires Inv(cfg, s) && 0 <= t < |s.threads| && s.threads[t].pc == Evict(cl, chain, victim, force)
    requires PcOk(cfg, s, s.threads[t].pc)
    ensures Inv(cfg, RunEvict(cfg, s, t, cl, chain, victim, force))
  {
    hide SpansOk, Balanced, CentralsOk, PcsOk, Homed, Mutex, Kept, CellsOf, CentralOk, DropRun;
    var c := s.central[victim];
    if victim == 0 {
      var c' := if c.cacheSize == 0 then c else c.(cacheSize := c.cacheSize - 1);
      PcMoveKeeps(cfg, s, t, cl, Back(cl, chain, force, c.cacheSize != 0));
      ZeroKeeps(cfg, WithPc(s, t, Back(cl, chain, force, c.cacheSize != 0)), c');
      assert WithCentral(s, 0, c) == s;
      return;
    }
    CacheRange(cfg, s, victim);
    InvCentral(cfg, s, victim);
    if c.cacheSize == 0 || (|c.slots| == c.cacheSize && !force) {
      PcMoveKeeps(cfg, s, t, victim, Back(cl, chain, force, false));
    } else if |c.slots| != c.cacheSize {
      ResizeKeeps(cfg[victim], s.live, victim, c, c.cacheSize - 1);
      CentralMoveKeeps(cfg, s, t, victim, c.(cacheSize := c.cacheSize - 1), Back(cl, chain, force, true));
    } else {
      PopSlotKeeps(cfg[victim], s.live, victim, c);
      var (slot, c') := PopSlot(c);
      ResizeKeeps(cfg[victim], s.live, victim, c', c.cacheSize - 1);
      DropRunKeeps(cfg, s, t, victim, c'.(cacheSize := c.cacheSize - 1), slot, Resume(cl, chain, force));
    }
  }

  /** Nothing but its own range depends on class 0. */
  lemma ZeroKeeps(cfg: Config, s: State, c: CentralList)
    requires Inv(cfg, s) && |cfg| > 0 && EmptyCentral(c)
    ensures Inv(cfg, WithCentral(s, 0, c))
  {
    hide SpansOk, Kept, CentralOk, Full, ThreadSum, CellsOf;
    var s' := WithCentral(s, 0, c);
    assert Sized(cfg, s') && forall k :: IsClass(cfg, k) ==> s'.central[k] == s.central[k];
    forall u | 0 <= u < |s'.threads| ensures PcOk(cfg, s', s'.threads[u].pc) { InvPc(cfg, s, u); }
    ZeroHomed(cfg, s, s');
    TypedFrom(cfg, s');
  }

  lemma ZeroHomed(cfg: Config, s: State, s': State)
    requires Inv(cfg, s) && Sized(cfg, s') && s'.live == s.live && s'.threads == s.threads
    requires forall k :: IsClass(cfg, k) ==> s'.central[k] == s.central[k]
    ensures Homed(cfg, s')
  {
    hide SpansOk, Balanced, CentralsOk, PcsOk, Mutex, Carried;
    forall i | i in s'.live && IsClass(cfg, s'.live[i].sizeclass)
      ensures i in s'.central[s'.live[i].sizeclass].cuts || SomeoneCarries(s', i)
    {
      if i !in s.central[s.live[i].sizeclass].cuts {
        assert SomeoneCarries(s, i);
        var u :| 0 <= u < |s.threads| && Carried(s.threads[u].pc) == Some(i);
        assert Carried(s'.threads[u].pc) == Some(i);
      }
    }
  }

  lemma RunBackKeeps(cfg: Config, s: State, t: int, cl: int, chain: seq<Addr>, force: bool, ok: bool, ch: Choice)
    requires Inv(cfg, s) && 0 <= t < |s.threads| && s.threads[t].pc == Back(cl, chain, force, ok)
    requires PcOk(cfg, s, s.threads[t].pc) && ChoiceOk(cfg, s, s.threads[t].pc, ch)
    ensures Inv(cfg, RunBack(cfg, s, t, cl, chain, force, ok, ch))
  {
    hide SpansOk, Balanced, CentralsOk, PcsOk, Homed, Mutex, Kept, CellsOf, CentralOk, DropRun, SecondTry;
    var c := s.central[cl];
    CacheRange(cfg, s, cl);
    if ok && c.cacheSize < c.maxCache {
      PushKeeps(cfg, s, t, cl, chain, c.cacheSize + 1);
    } else if !ok && !force {
      SecondTryKeeps(cfg, s, t, cl, chain, ch);
    } else {
      DropOwn(cfg, s, t, cl, chain);
    }
  }

  lemma RunDropKeeps(cfg: Config, s: State, t: int, cl: int, rest: seq<Addr>, after: After)
    requires Inv(cfg, s) && 0 <= t < |s.threads| && s.threads[t].pc == Drop(cl, rest, after)
    requires PcOk(cfg, s, s.threads[t].pc)
    ensures Inv(cfg, DropRun(cfg, s, t, cl, rest, after))
  {
    hide SpansOk, Balanced, CentralsOk, PcsOk, Homed, Mutex, Kept, CellsOf, CentralOk, DropRun, AfterHand;
    InvCentral(cfg, s, cl);
    var h := AfterHand(after, cl);
    assert Kept(s.central[cl]) + multiset(rest) + h == Kept(s.central[cl]) + (multiset(rest) + h);
    DropRunKeeps(cfg, s, t, cl, s.central[cl], rest, after);
    assert WithCentral(s, cl, s.central[cl]) == s;
  }

  // ---------------------------------------------------------------- steps with the page-heap lock

  /** The spans of class `k` that the lists of `c` mention look the same in both tables. */
  ghost predicate SameFor(c: CentralList, t: Table, u: Table) {
    forall i :: i in c.cuts && i in t ==> i in u && u[i] == t[i]
  }

  lemma CentralOkIn(k: Class, cl: int, c: CentralList, t: Table, u: Table)
    requires k.Ok() && CentralOk(k, t, cl, c) && SameFor(c, t, u)
    ensures CentralOk(k, u, cl, c)
  {
    hide CellsOf, ListsOk, CountsOk, SlotsOk, AllOut;
    forall i | i in c.cuts ensures CutOk(k, u, cl, i, c.cuts[i]) {
      assert CutOk(k, t, cl, i, c.cuts[i]);
    }
  }

  lemma CentralsOkIn(cfg: Config, s: State, s': State)
    requires Inv(cfg, s) && Sized(cfg, s') && s'.central == s.central
    requires forall k :: IsClass(cfg, k) ==> SameFor(s.central[k], s.live, s'.live)
    ensures CentralsOk(cfg, s')
  {
    hide SpansOk, Balanced, PcsOk, Homed, Mutex, CentralOk, SameFor;
    forall k | IsClass(cfg, k) ensures CentralOk(cfg[k], s'.live, k, s'.central[k]) {
      InvCentral(cfg, s, k);
      CentralOkIn(cfg[k], k, s.central[k], s.live, s'.live);
    }
  }

  lemma PcOkIn(cfg: Config, s: State, s': State, pc: Pc)
    requires ConfigOk(cfg) && |s.central| == |cfg| && s'.central == s.central && PcOk(cfg, s, pc)
    requires Carried(pc).Some? && Carried(pc).value in s.live ==>
               Carried(pc).value in s'.live && s'.live[Carried(pc).value] == s.live[Carried(pc).value]
    ensures PcOk(cfg, s', pc)
  {
    hide CellsOf;
  }

  lemma LiveBalance(cfg: Config, s: State, s': State, t: int)
    requires Inv(cfg, s) && 0 <= t < |s.threads| && Sized(cfg, s')
    requires s'.central == s.central && s'.client == s.client
    requires |s'.threads| == |s.threads| && s'.threads == s.threads[t := s'.threads[t]]
    requires forall k :: IsClass(cfg, k) ==>
               ThreadHeld(s'.threads[t], k) + Full(cfg, s.live, k) == ThreadHeld(s.threads[t], k) + Full(cfg, s'.live, k)
    ensures Balanced(cfg, s')
  {
    hide Kept, Full, ThreadHeld, ThreadSum, Mutex, Homed, PcsOk, CentralsOk, SpansOk;
    forall k | IsClass(cfg, k) ensures Held(s', k) == Full(cfg, s'.live, k) {
      ThreadSumUpdate(s.threads, t, s'.threads[t], k);
      InvBalance(cfg, s, k);
      forall o ensures Held(s', k)[o] == Full(cfg, s'.live, k)[o] {
        assert (ThreadHeld(s'.threads[t], k) + Full(cfg, s.live, k))[o] == (ThreadHeld(s.threads[t], k) + Full(cfg, s'.live, k))[o];
        assert (ThreadSum(s'.threads, k) + ThreadHeld(s.threads[t], k))[o]
            == (ThreadSum(s.threads, k) + ThreadHeld(s'.threads[t], k))[o];
      }
    }
  }

  lemma FullAdd(cfg: Config, live: Table, i: SpanId, sp: Span, k: int)
    requires ConfigOk(cfg) && 0 <= k < |cfg| && i !in live
    ensures Full(cfg, live[i := sp], k)
         == Full(cfg, live, k) + (if sp.sizeclass == k then multiset(CellsOf(cfg[k], sp.start)) else multiset{})
  {
    hide CellsOf, Sum;
    SumAdd(live, CellsIn(cfg, k), i, sp);
  }

  lemma FullRemove(cfg: Config, live: Table, i: SpanId, k: int)
    requires ConfigOk(cfg) && 0 <= k < |cfg| && i in live
    ensures Full(cfg, live, k)
         == Full(cfg, live - {i}, k) + (if live[i].sizeclass == k then multiset(CellsOf(cfg[k], live[i].start)) else multiset{})
  {
    hide CellsOf, Sum;
    SumSplit(live, CellsIn(cfg, k), i);
  }

  lemma SpansOkAdd(cfg: Config, live: Table, i: SpanId, sp: Span)
    requires SpansOk(cfg, live) && i !in live && Tiled(live[i := sp]) && sp.location == InUse
    requires sp.sizeclass != 0 ==> IsClass(cfg, sp.sizeclass) && sp.length == cfg[sp.sizeclass].pages
    ensures SpansOk(cfg, live[i := sp])
  {
    hide Tiled;
  }

  lemma SpansOkRemove(cfg: Config, live: Table, i: SpanId)
    requires SpansOk(cfg, live)
    ensures SpansOk(cfg, live - {i})
  {
  }

  lemma KnownSpans(cfg: Config, s: State, k: int, i: SpanId)
    requires Inv(cfg, s) && IsClass(cfg, k) && i in s.central[k].cuts
    ensures SpanOk(cfg[k], s.live, k, i)
  {
    hide SpansOk, Balanced, CentralsOk, PcsOk, Homed, Mutex, ListsOk, CountsOk, SlotsOk, AllOut, CellsOf;
    InvCentral(cfg, s, k);
    assert CutOk(cfg[k], s.live, k, i, s.central[k].cuts[i]);
  }

  lemma SameForAdd(c: CentralList, live: Table, i: SpanId, sp: Span)
    requires i !in live
    ensures SameFor(c, live, live[i := sp])
  {
  }

  /** Nobody minds a new span: what others carry is unchanged, and it is not on any list. */
  lemma NewSpanPcs(cfg: Config, s: State, s': State, t: int)
    requires Inv(cfg, s) && 0 <= t < |s.threads| && |s'.threads| == |s.threads| && |s'.central| == |cfg|
    requires s'.central == s.central && s'.threads == s.threads[t := s'.threads[t]]
    requires forall i :: i in s.live ==> i in s'.live && s'.live[i] == s.live[i]
    requires PcOk(cfg, s', s'.threads[t].pc)
    ensures PcsOk(cfg, s')
  {
    hide SpansOk, Balanced, CentralsOk, Homed, Mutex, PcOk, Carried;
    forall u | 0 <= u < |s'.threads| ensures PcOk(cfg, s', s'.threads[u].pc) {
      if u != t {
        InvPc(cfg, s, u);
        PcOkIn(cfg, s, s', s.threads[u].pc);
      }
    }
  }

  lemma NewSpanHomed(cfg: Config, s: State, s': State, t: int, id: SpanId, sp: Span)
    requires Inv(cfg, s) && Sized(cfg, s') && 0 <= t < |s.threads| && |s'.threads| == |s.threads|
    requires s'.central == s.central && s'.threads == s.threads[t := s'.threads[t]]
    requires id !in s.live && s'.live == s.live[id := sp]
    requires Carried(s.threads[t].pc).None? && (sp.sizeclass != 0 ==> Carried(s'.threads[t].pc) == Some(id))
    ensures Homed(cfg, s')
  {
    hide SpansOk, Balanced, CentralsOk, PcsOk, Mutex, Carried;
    forall i | i in s'.live && IsClass(cfg, s'.live[i].sizeclass)
      ensures i in s'.central[s'.live[i].sizeclass].cuts || SomeoneCarries(s', i)
    {
      if i != id && i !in s.central[s.live[i].sizeclass].cuts {
        assert SomeoneCarries(s, i);
        var u :| 0 <= u < |s.threads| && Carried(s.threads[u].pc) == Some(i);
        assert Carried(s'.threads[u].pc) == Some(i);
      }
    }
  }

  /** The page heap hands thread `t` a new span of class `cl`. */
  lemma AskGets(cfg: Config, s: State, t: int, cl: int, n: int, id: SpanId, start: PageId)
    requires Inv(cfg, s) && 0 <= t < |s.threads| && s.threads[t].pc == Ask(cl, n) && IsClass(cfg, cl) && n >= 1
    requires id !in s.live && Tiled(s.live[id := Span(start, cfg[cl].pages, InUse, cl)])
    ensures Inv(cfg, WithPc(s.(live := s.live[id := Span(start, cfg[cl].pages, InUse, cl)]), t,
                            Carry(cl, n, Some((id, CellsOf(cfg[cl], start))))))
  {
    hide SpansOk, Balanced, CentralsOk, PcsOk, Homed, Kept, CellsOf, CentralOk, Full, Tiled, SameFor;
    var sp := Span(start, cfg[cl].pages, InUse, cl);
    var s' := WithPc(s.(live := s.live[id := sp]), t, Carry(cl, n, Some((id, CellsOf(cfg[cl], start)))));
    SpansOkAdd(cfg, s.live, id, sp);
    assert id !in s.central[cl].cuts by { if id in s.central[cl].cuts { KnownSpans(cfg, s, cl, id); } }
    forall k | IsClass(cfg, k) ensures SameFor(s.central[k], s.live, s'.live) {
      SameForAdd(s.central[k], s.live, id, sp);
    }
    CentralsOkIn(cfg, s, s');
    forall k | IsClass(cfg, k)
      ensures ThreadHeld(s'.threads[t], k) + Full(cfg, s.live, k) == ThreadHeld(s.threads[t], k) + Full(cfg, s'.live, k)
    {
      FullAdd(cfg, s.live, id, sp, k);
    }
    LiveBalance(cfg, s, s', t);
    NewSpanPcs(cfg, s, s', t);
    NewSpanHomed(cfg, s, s', t, id, sp);
    TypedFrom(cfg, s');
  }

  lemma NotListed(cfg: Config, s: State, id: SpanId, k: int)
    requires Inv(cfg, s) && IsClass(cfg, k) && id in s.live
    requires IsClass(cfg, s.live[id].sizeclass) ==> id !in s.central[s.live[id].sizeclass].cuts
    ensures id !in s.central[k].cuts && SameFor(s.central[k], s.live, s.live - {id})
  {
    hide SpansOk, Balanced, CentralsOk, PcsOk, Homed, Mutex;
    if id in s.central[k].cuts { KnownSpans(cfg, s, k, id); }
  }

  lemma GoneHomed(cfg: Config, s: State, s': State, id: SpanId)
    requires Inv(cfg, s) && Sized(cfg, s') && |s'.threads| == |s.threads|
    requires s'.central == s.central && s'.live == s.live - {id}
    requires forall u :: 0 <= u < |s.threads| && Carried(s.threads[u].pc) != Some(id) ==> s'.threads[u].pc == s.threads[u].pc
    ensures Homed(cfg, s')
  {
    hide SpansOk, Balanced, CentralsOk, PcsOk, Mutex, Carried;
    forall i | i in s'.live && IsClass(cfg, s'.live[i].sizeclass)
      ensures i in s'.central[s'.live[i].sizeclass].cuts || SomeoneCarries(s', i)
    {
      if i !in s.central[s.live[i].sizeclass].cuts {
        assert SomeoneCarries(s, i);
        var u :| 0 <= u < |s.threads| && Carried(s.threads[u].pc) == Some(i);
        assert Carried(s'.threads[u].pc) == Some(i);
      }
    }
  }

  lemma GonePcs(cfg: Config, s: State, s': State, t: int, id: SpanId)
    requires Inv(cfg, s) && 0 <= t < |s.threads| && |s'.threads| == |s.threads| && |s'.central| == |cfg|
    requires s'.central == s.central && s'.threads == s.threads[t := s'.threads[t]] && s'.live == s.live - {id}
    requires Carried(s.threads[t].pc) == Some(id) && PcOk(cfg, s', s'.threads[t].pc)
    ensures PcsOk(cfg, s')
  {
    hide SpansOk, Balanced, CentralsOk, Homed, Mutex, PcOk, Carried;
    forall u | 0 <= u < |s'.threads| ensures PcOk(cfg, s', s'.threads[u].pc) {
      if u != t {
        InvPc(cfg, s, u);
        if Carried(s.threads[u].pc) == Some(id) { OneCarrier(cfg, s, t, u, id); }
        PcOkIn(cfg, s, s', s.threads[u].pc);
      }
    }
  }

  lemma DrainHand(th: Thread, th': Thread, k: int)
    requires th.pc.Drain? && th'.lists == th.lists && th'.pc == Drop(th.pc.cl, th.pc.rest, th.pc.after)
    ensures ThreadHeld(th, k) == ThreadHeld(th', k) + (if th.pc.cl == k then multiset(th.pc.gone) else multiset{})
  {
    hide AfterHand;
  }

  /** The page heap takes back the span thread `t` has emptied. */
  lemma DrainKeeps(cfg: Config, s: State, t: int)
    requires Inv(cfg, s) && 0 <= t < |s.threads| && s.threads[t].pc.Drain?
    ensures var pc := s.threads[t].pc;
      Inv(cfg, WithPc(s.(live := s.live - {pc.id}), t, Drop(pc.cl, pc.rest, pc.after)))
  {
    hide SpansOk, Balanced, CentralsOk, PcsOk, Homed, Kept, CellsOf, CentralOk, Full, Tiled, SameFor, ThreadHeld;
    var pc := s.threads[t].pc;
    var id := pc.id;
    var s' := WithPc(s.(live := s.live - {id}), t, Drop(pc.cl, pc.rest, pc.after));
    InvPc(cfg, s, t);
    SpansOkRemove(cfg, s.live, id);
    forall k | IsClass(cfg, k) ensures SameFor(s.central[k], s.live, s'.live) {
      NotListed(cfg, s, id, k);
    }
    CentralsOkIn(cfg, s, s');
    forall k | IsClass(cfg, k)
      ensures ThreadHeld(s'.threads[t], k) + Full(cfg, s.live, k) == ThreadHeld(s.threads[t], k) + Full(cfg, s'.live, k)
    {
      FullRemove(cfg, s.live, id, k);
      DrainHand(s.threads[t], s'.threads[t], k);
      var g := if pc.cl == k then multiset(pc.gone) else multiset{};
      assert ThreadHeld(s'.threads[t], k) + (Full(cfg, s'.live, k) + g) == (ThreadHeld(s'.threads[t], k) + g) + Full(cfg, s'.live, k);
    }
    LiveBalance(cfg, s, s', t);
    GonePcs(cfg, s, s', t, id);
    GoneHomed(cfg, s, s', id);
    TypedFrom(cfg, s');
  }

  // ---------------------------------------------------------------- large blocks

  lemma LargeBalance(cfg: Config, s: State, s': State)
    requires Inv(cfg, s) && Sized(cfg, s')
    requires s'.central == s.central && s'.client == s.client && s'.threads == s.threads
    requires forall k :: IsClass(cfg, k) ==> Full(cfg, s'.live, k) == Full(cfg, s.live, k)
    ensures Balanced(cfg, s')
  {
    hide Kept, Full, ThreadSum, Mutex, Homed, PcsOk, CentralsOk, SpansOk;
    forall k | IsClass(cfg, k) ensures Held(s', k) == Full(cfg, s'.live, k) {
      InvBalance(cfg, s, k);
    }
  }

  lemma NewLargeKeeps(cfg: Config, s: State, id: SpanId, sp: Span)
    requires Inv(cfg, s) && id !in s.live && sp.location == InUse && sp.sizeclass == 0 && Tiled(s.live[id := sp])
    ensures Inv(cfg, s.(live := s.live[id := sp]))
  {
    hide SpansOk, Balanced, CentralsOk, PcsOk, Homed, Kept, Full, Tiled, SameFor, PcOk;
    var s' := s.(live := s.live[id := sp]);
    SpansOkAdd(cfg, s.live, id, sp);
    forall k | IsClass(cfg, k) ensures SameFor(s.central[k], s.live, s'.live) && Full(cfg, s'.live, k) == Full(cfg, s.live, k) {
      SameForAdd(s.central[k], s.live, id, sp);
      FullAdd(cfg, s.live, id, sp, k);
    }
    CentralsOkIn(cfg, s, s');
    LargeBalance(cfg, s, s');
    assert PcsOk(cfg, s') by { LargePcs(cfg, s, s'); }
    assert Homed(cfg, s') by { LargeHomed(cfg, s, s'); }
    TypedFrom(cfg, s');
  }

  lemma LargePcs(cfg: Config, s: State, s': State)
    requires Inv(cfg, s) && s'.central == s.central && s'.threads == s.threads
    requires forall i :: i in s.live && s.live[i].sizeclass != 0 ==> i in s'.live && s'.live[i] == s.live[i]
    ensures PcsOk(cfg, s')
  {
    hide SpansOk, Balanced, CentralsOk, Homed, Mutex, PcOk, Carried;
    forall u | 0 <= u < |s'.threads| ensures PcOk(cfg, s', s'.threads[u].pc) {
      InvPc(cfg, s, u);
      if Carried(s.threads[u].pc).Some? { CarriedHeld(cfg, s, u, Carried(s.threads[u].pc).value); }
      PcOkIn(cfg, s, s', s.threads[u].pc);
    }
  }

  lemma LargeHomed(cfg: Config, s: State, s': State)
    requires Inv(cfg, s) && Sized(cfg, s') && s'.central == s.central && s'.threads == s.threads
    requires forall i :: i in s'.live && s'.live[i].sizeclass != 0 ==> i in s.live && s.live[i] == s'.live[i]
    ensures Homed(cfg, s')
  {
    hide SpansOk, Balanced, CentralsOk, PcsOk, Mutex, Carried;
    forall i | i in s'.live && IsClass(cfg, s'.live[i].sizeclass)
      ensures i in s'.central[s'.live[i].sizeclass].cuts || SomeoneCarries(s', i)
    {
      if i !in s.central[s.live[i].sizeclass].cuts {
        assert SomeoneCarries(s, i);
        var u :| 0 <= u < |s.threads| && Carried(s.threads[u].pc) == Some(i);
        assert Carried(s'.threads[u].pc) == Some(i);
      }
    }
  }

  lemma FreeLargeKeeps(cfg: Config, s: State, id: SpanId)
    requires Inv(cfg, s) && id in s.live && s.live[id].sizeclass == 0
    ensures Inv(cfg, s.(live := s.live - {id}))
  {
    hide SpansOk, Balanced, CentralsOk, PcsOk, Homed, Kept, Full, Tiled, SameFor, PcOk;
    var s' := s.(live := s.live - {id});
    SpansOkRemove(cfg, s.live, id);
    forall k | IsClass(cfg, k) ensures SameFor(s.central[k], s.live, s'.live) && Full(cfg, s'.live, k) == Full(cfg, s.live, k) {
      NotListed(cfg, s, id, k);
      FullRemove(cfg, s.live, id, k);
    }
    CentralsOkIn(cfg, s, s');
    LargeBalance(cfg, s, s');
    LargePcs(cfg, s, s');
    LargeHomed(cfg, s, s');
    TypedFrom(cfg, s');
  }

  // ---------------------------------------------------------------- steps without a lock

  lemma IdleHasNot(cfg: Config, s: State, t: int)
    requires Inv(cfg, s) && IdleThread(s, t)
    ensures !s.threads[t].has && Carried(s.threads[t].pc).None?
    ensures forall k :: Hand(s.threads[t].pc, k) == multiset{}
  {
    hide SpansOk, Balanced, CentralsOk, PcsOk, Homed;
  }

  /** A step of one thread that moves objects between its lists, its hand and the clients. */
  lemma ThreadMoveKeeps(cfg: Config, s: State, s': State, t: int, cl: int)
    requires Inv(cfg, s) && IdleThread(s, t) && IsClass(cfg, cl) && OnlyAt(s, s', t, cl) && s'.central == s.central
    requires |s'.threads[t].lists| == |cfg| && !s'.threads[t].has
    requires Carried(s'.threads[t].pc).None? && PcOk(cfg, s', s'.threads[t].pc)
    requires forall k :: IsClass(cfg, k) && k != cl ==>
               s'.threads[t].lists[k] == s.threads[t].lists[k] && Hand(s'.threads[t].pc, k) == multiset{}
    requires s'.client[cl] + (multiset(s'.threads[t].lists[cl]) + Hand(s'.threads[t].pc, cl))
          == s.client[cl] + multiset(s.threads[t].lists[cl])
    ensures Inv(cfg, s')
  {
    hide SpansOk, Balanced, CentralsOk, PcsOk, Homed, Mutex, Kept, CentralOk, Share, Hand, Carried, PcOk;
    IdleHasNot(cfg, s, t);
    InvCentral(cfg, s, cl);
    forall k | IsClass(cfg, k) ensures Share(s', t, k) == Share(s, t, k) {
      if k == cl {
        assert Hand(s.threads[t].pc, cl) == multiset{};
        ShareMoved(s, s', t, cl);
      } else {
        DeliverOther(s, s', t, cl, k);
      }
    }
    LocalKeeps(cfg, s, s', t, cl);
  }

  lemma ShareMoved(s: State, s': State, t: int, k: int)
    requires 0 <= t < |s.threads| == |s'.threads| && 0 <= k < |s.client| == |s'.client| && 0 <= k < |s.central| && s'.central == s.central
    requires k < |s.threads[t].lists| && k < |s'.threads[t].lists| && Hand(s.threads[t].pc, k) == multiset{}
    requires s'.client[k] + (multiset(s'.threads[t].lists[k]) + Hand(s'.threads[t].pc, k))
          == s.client[k] + multiset(s.threads[t].lists[k])
    ensures Share(s', t, k) == Share(s, t, k)
  {
    hide Kept, Hand;
  }

  lemma MallocKeeps(cfg: Config, s: State, t: int, cl: int)
    requires Inv(cfg, s) && Enabled(cfg, s, Malloc(t, cl))
    ensures Inv(cfg, Apply(cfg, s, Malloc(t, cl)))
  {
    hide SpansOk, Balanced, CentralsOk, PcsOk, Homed, Mutex;
    IdleHasNot(cfg, s, t);
    var s' := Apply(cfg, s, Malloc(t, cl));
    var q := s.threads[t].lists[cl];
    assert q == [q[0]] + q[1..];
    assert (s.client[cl] + multiset{q[0]}) + multiset(q[1..]) == s.client[cl] + (multiset{q[0]} + multiset(q[1..]));
    ThreadMoveKeeps(cfg, s, s', t, cl);
  }

  lemma FlushKeeps(cfg: Config, s: State, t: int, cl: int, n: int)
    requires Inv(cfg, s) && Enabled(cfg, s, Flush(t, cl, n))
    ensures Inv(cfg, Apply(cfg, s, Flush(t, cl, n)))
  {
    hide SpansOk, Balanced, CentralsOk, PcsOk, Homed, Mutex;
    var s' := Apply(cfg, s, Flush(t, cl, n));
    var q := s.threads[t].lists[cl];
    assert q == q[..n] + q[n..];
    assert multiset(q[n..]) + multiset(q[..n]) == multiset(q);
    ThreadMoveKeeps(cfg, s, s', t, cl);
  }

  /** The class looked up for a block is the class it was allocated from. */
  lemma FreeFindsClass(cfg: Config, s: State, k: int, o: Addr)
    requires Inv(cfg, s) && IsClass(cfg, k) && o in s.client[k]
    ensures ClassAt(s.live, o) == k
  {
    hide Balanced, CentralsOk, PcsOk, Homed, Mutex, CellsOf, Kept, Tiled, Held, Full, Owner;
    assert o in Held(s, k) by { ClientInHeld(s, k, o); }
    InvBalance(cfg, s, k);
    FullHome(cfg, s.live, k, o);
    var i :| SpanOk(cfg[k], s.live, k, i) && o in CellsOf(cfg[k], s.live[i].start);
    OwnerOfCell(cfg[k], s.live, k, i, o);
  }

  lemma ClientInHeld(s: State, k: int, o: Addr)
    requires 0 <= k < |s.client| && 0 <= k < |s.central| && o in s.client[k]
    ensures o in Held(s, k)
  {
    hide Kept, ThreadSum;
  }

  lemma FreeKeeps(cfg: Config, s: State, t: int, o: Addr)
    requires Inv(cfg, s) && Enabled(cfg, s, Free(t, o))
    ensures Inv(cfg, Apply(cfg, s, Free(t, o)))
  {
    hide SpansOk, Balanced, CentralsOk, PcsOk, Homed, Mutex, ZeroOk, ClassAt;
    IdleHasNot(cfg, s, t);
    var k := FreedClass(cfg, s, o);
    var q, m := s.threads[t].lists[k], s.client[k];
    assert m == (m - multiset{o}) + multiset{o};
    assert multiset([o] + q) == multiset{o} + multiset(q);
    ThreadMoveKeeps(cfg, s, Apply(cfg, s, Free(t, o)), t, k);
  }

  lemma FreeDirectKeeps(cfg: Config, s: State, t: int, o: Addr)
    requires Inv(cfg, s) && Enabled(cfg, s, FreeDirect(t, o))
    ensures Inv(cfg, Apply(cfg, s, FreeDirect(t, o)))
  {
    hide SpansOk, Balanced, CentralsOk, PcsOk, Homed, Mutex, ZeroOk, ClassAt;
    IdleHasNot(cfg, s, t);
    var k := FreedClass(cfg, s, o);
    var m := s.client[k];
    assert m == (m - multiset{o}) + multiset{o};
    assert multiset([o]) == multiset{o};
    ThreadMoveKeeps(cfg, s, Apply(cfg, s, FreeDirect(t, o)), t, k);
  }

  /** A block a client holds is found in the span of its own class. */
  lemma FreedClass(cfg: Config, s: State, o: Addr) returns (k: int)
    requires Inv(cfg, s) && ClientHas(cfg, s, o)
    ensures IsClass(cfg, k) && ClassAt(s.live, o) == k && o in s.client[k]
  {
    hide SpansOk, Balanced, CentralsOk, PcsOk, Homed, Mutex, ZeroOk, ClassAt;
    k :| IsClass(cfg, k) && o in s.client[k];
    FreeFindsClass(cfg, s, k, o);
  }

  lemma AcquireKeeps(cfg: Config, s: State, t: int)
    requires Inv(cfg, s) && Enabled(cfg, s, Acquire(t))
    ensures Inv(cfg, Apply(cfg, s, Acquire(t)))
  {
    hide SpansOk, Kept, CentralOk, Full, PcOk, ThreadSum;
    var s' := Apply(cfg, s, Acquire(t));
    forall k ensures ThreadSum(s'.threads, k) == ThreadSum(s.threads, k) {
      ThreadSumUpdate(s.threads, t, s'.threads[t], k);
      Same(ThreadSum(s'.threads, k), ThreadSum(s.threads, k), ThreadHeld(s.threads[t], k));
    }
    forall u | 0 <= u < |s'.threads| ensures PcOk(cfg, s', s'.threads[u].pc) {
      InvPc(cfg, s, u);
      PcOkIn(cfg, s, s', s.threads[u].pc);
    }
    AcquireHomed(cfg, s, s');
    TypedFrom(cfg, s');
  }

  lemma Same(a: multiset<Addr>, b: multiset<Addr>, c: multiset<Addr>)
    requires a + c == b + c
    ensures a == b
  {
    assert (a + c) - c == a && (b + c) - c == b;
  }

  lemma AcquireHomed(cfg: Config, s: State, s': State)
    requires Inv(cfg, s) && Sized(cfg, s') && s'.central == s.central && s'.live == s.live && |s'.threads| == |s.threads|
    requires forall u :: 0 <= u < |s.threads| ==> s'.threads[u].pc == s.threads[u].pc
    ensures Homed(cfg, s')
  {
    hide SpansOk, Balanced, CentralsOk, PcsOk, Mutex, Carried;
    forall i | i in s'.live && IsClass(cfg, s'.live[i].sizeclass)
      ensures i in s'.central[s'.live[i].sizeclass].cuts || SomeoneCarries(s', i)
    {
      if i !in s.central[s.live[i].sizeclass].cuts {
        assert SomeoneCarries(s, i);
        var u :| 0 <= u < |s.threads| && Carried(s.threads[u].pc) == Some(i);
        assert Carried(s'.threads[u].pc) == Some(i);
      }
    }
  }

  // ---------------------------------------------------------------- all runs

  lemma RunKeeps(cfg: Config, s: State, t: int, ch: Choice)
    requires Inv(cfg, s) && 0 <= t < |s.threads| && s.threads[t].has && ChoiceOk(cfg, s, s.threads[t].pc, ch)
    ensures Inv(cfg, Run(cfg, s, t, ch))
  {
    hide Inv, CellsOf, RunRemove, RunCarry, RunInsert, RunEvict, RunBack, DropRun, Tiled;
    InvPc(cfg, s, t);
    match s.threads[t].pc
    case Idle =>
    case Remove(cl, n) => RunRemoveKeeps(cfg, s, t, cl, n);
    case Ask(cl, n) =>
      if ch.span.None? {
        PcMoveKeeps(cfg, s, t, cl, Carry(cl, n, None));
      } else {
        AskGets(cfg, s, t, cl, n, ch.span.value.0, ch.span.value.1);
      }
    case Carry(cl, n, got) => RunCarryKeeps(cfg, s, t, cl, n, got);
    case Insert(cl, chain) => RunInsertKeeps(cfg, s, t, cl, chain, ch);
    case Evict(cl, chain, victim, force) => RunEvictKeeps(cfg, s, t, cl, chain, victim, force);
    case Back(cl, chain, force, ok) => RunBackKeeps(cfg, s, t, cl, chain, force, ok, ch);
    case Drop(cl, rest, after) => RunDropKeeps(cfg, s, t, cl, rest, after);
    case Drain(cl, id, gone, rest, after) => DrainKeeps(cfg, s, t);
  }

  lemma StepKeeps(cfg: Config, s: State, step: Step)
    requires Inv(cfg, s) && Enabled(cfg, s, step)
    ensures Inv(cfg, Apply(cfg, s, step))
  {
    hide SpansOk, Balanced, CentralsOk, PcsOk, Homed, Mutex, Run, Tiled, ClientHas, PcOk;
    match step
    case Malloc(t, cl) => MallocKeeps(cfg, s, t, cl);
    case Refill(t, cl, n) =>
      IdleHasNot(cfg, s, t);
      RefillKeeps(cfg, s, t, cl, n);
    case Free(t, o) => FreeKeeps(cfg, s, t, o);
    case FreeDirect(t, o) => FreeDirectKeeps(cfg, s, t, o);
    case Flush(t, cl, n) => FlushKeeps(cfg, s, t, cl, n);
    case Acquire(t) => AcquireKeeps(cfg, s, t);
    case RunLocked(t, ch) => RunKeeps(cfg, s, t, ch);
    case NewLarge(id, start, length) => NewLargeKeeps(cfg, s, id, Span(start, length, InUse, 0));
    case FreeLarge(id) => FreeLargeKeeps(cfg, s, id);
  }

  lemma RefillKeeps(cfg: Config, s: State, t: int, cl: int, n: int)
    requires Inv(cfg, s) && IdleThread(s, t) && IsClass(cfg, cl) && n >= 1
    ensures Inv(cfg, WithPc(s, t, Remove(cl, n)))
  {
    hide SpansOk, Balanced, CentralsOk, PcsOk, Homed, Mutex;
    PcMoveKeeps(cfg, s, t, cl, Remove(cl, n));
  }

  lemma {:induction false} NoThreadsHold(threads: seq<Thread>, k: int)
    requires forall u :: 0 <= u < |threads| ==> ThreadHeld(threads[u], k) == multiset{}
    ensures ThreadSum(threads, k) == multiset{}
  {
    hide ThreadHeld;
    if threads != [] { NoThreadsHold(threads[1..], k); }
  }

  lemma InitHolds(cfg: Config, s: State)
    requires Init(cfg, s)
    ensures Inv(cfg, s)
  {
    assert SpansOk(cfg, s.live);
    forall k | IsClass(cfg, k) ensures Held(s, k) == Full(cfg, s.live, k) {
      NoThreadsHold(s.threads, k);
    }
    forall k | IsClass(cfg, k) ensures CentralOk(cfg[k], s.live, k, s.central[k]) {
      assert EmptyCentral(s.central[k]);
    }
    TypedFrom(cfg, s);
  }

  /** Every state of every run satisfies the invariant. */
  lemma {:induction false} InvAlways(cfg: Config, run: seq<State>, j: int)
    requires IsRun(cfg, run) && 0 <= j < |run|
    ensures Inv(cfg, run[j])
    decreases j
  {
    hide Inv;
    if j == 0 {
      InitHolds(cfg, run[0]);
    } else {
      InvAlways(cfg, run, j - 1);
      assert Next(cfg, run[j - 1], run[j - 1 + 1]);
      var step :| Enabled(cfg, run[j - 1], step) && run[j] == Apply(cfg, run[j - 1], step);
      StepKeeps(cfg, run[j - 1], step);
    }
  }
}
