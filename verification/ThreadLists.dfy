/** The free lists of one thread: a list per size class, with low-water marks and a
    limit on the length that follows use.  Chains come from and go to the central lists. */
module ThreadLists {
  import opened Arithmetic
  import opened Spans
  import opened Cells

  const MaxDynamicLength: int := 8192
  const MaxOverages: int := 3

  datatype FreeList = FreeList(chain: seq<Addr>, length: int, lowater: int, maxLength: int, overages: int, objectSize: int) {
    function Push(o: Addr): FreeList {
      this.(chain := [o] + chain, length := length + 1)
    }

    function PushRange(n: int, q: seq<Addr>): FreeList {
      this.(chain := q + chain, length := length + n)
    }

    /** Takes the first `n` objects; the low-water mark follows the length down. */
    function PopRange(n: int): FreeList
      requires 0 <= n <= |chain|
    {
      this.(chain := chain[n..], length := length - n, lowater := if length - n < lowater then length - n else lowater)
    }
  }

  function NewList(size: int): FreeList { FreeList([], 0, 0, 1, 0, size) }

  /** What holds of every list between operations. */
  ghost predicate ListOk(k: Class, l: FreeList) {
    && l.length == |l.chain| && 0 <= l.lowater <= l.length <= MaxDynamicLength && l.objectSize == k.size
    && LimitOk(k.batch, l.maxLength) && 0 <= l.overages <= MaxOverages
  }

  /** The limit is below the batch size, or a multiple of it. */
  ghost predicate LimitOk(batch: int, max: int)
  {
    1 <= max <= MaxDynamicLength && (batch >= 1 && max >= batch ==> max % batch == 0)
  }

  ghost predicate ClassesOk(cfg: seq<Class>) {
    forall k :: 0 <= k < |cfg| ==> cfg[k].Ok() && cfg[k].batch <= MaxDynamicLength
  }

  lemma ListFacts(k: Class, l: FreeList)
    requires ListOk(k, l)
    ensures l.lowater <= l.length == |l.chain| && l.objectSize == k.size
  {
  }

  // ---------------------------------------------------------------- limits

  /** The new limit after a fetch. */
  function Grown(batch: int, max: int): int
    requires batch >= 1
  {
    if max < batch then max + 1 else
      var n := if max + batch < MaxDynamicLength then max + batch else MaxDynamicLength;
      n - n % batch
  }

  /** An empty list after a fetch whose rest is `q`. */
  function Stocked(batch: int, l: FreeList, q: seq<Addr>): FreeList
    requires batch >= 1
  {
    l.PushRange(|q|, q).(maxLength := Grown(batch, l.maxLength))
  }

  lemma GrownOk(batch: int, max: int)
    requires 1 <= batch <= MaxDynamicLength && LimitOk(batch, max)
    ensures LimitOk(batch, Grown(batch, max))
    ensures max < batch ==> Grown(batch, max) == max + 1
    ensures max >= batch ==> max <= Grown(batch, max) <= Lesser(max + batch, MaxDynamicLength) < Grown(batch, max) + batch
    ensures batch <= max && max + batch <= MaxDynamicLength ==> Grown(batch, max) == max + batch
  {
    if max >= batch {
      var n := if max + batch < MaxDynamicLength then max + batch else MaxDynamicLength;
      Multiples(n, batch);
      Multiples(max, batch);
      assert max == (max / batch) * batch;
      assert n >= max;
      Floors(max, n, batch);
      if max + batch <= MaxDynamicLength { NextWhole(max, batch); }
    } else {
      SmallOrSame(batch, max + 1);
    }
  }

  lemma SmallOrSame(batch: int, max: int)
    requires 1 <= max <= batch
    ensures max >= batch ==> max % batch == 0
  {
  }

  lemma Multiples(n: int, b: int)
    requires n >= 0 && b >= 1
    ensures n - n % b == (n / b) * b && (n - n % b) % b == 0 && 0 <= n % b < b
  {
    Multiple(n / b, b);
  }

  lemma NextWhole(m: int, b: int)
    requires b >= 1 && m % b == 0
    ensures (m + b) % b == 0
  {
    Multiple(m / b + 1, b);
    assert m + b == (m / b + 1) * b;
  }

  function GrownTimes(batch: int, max: int, n: nat): int
    requires batch >= 1
    decreases n
  {
    if n == 0 then max else GrownTimes(batch, Grown(batch, max), n - 1)
  }

  /** Fetches alone take the limit of a list, in the end, to the largest multiple of the batch size allowed. */
  lemma {:induction false} GrowsToTop(batch: int, max: int, n: nat)
    requires 1 <= batch <= MaxDynamicLength && LimitOk(batch, max) && n >= MaxDynamicLength - max
    ensures GrownTimes(batch, max, n) == MaxDynamicLength - MaxDynamicLength % batch
    decreases n
  {
    hide Grown, LimitOk;
    TopFacts(batch, max);
    if max == MaxDynamicLength - MaxDynamicLength % batch {
      StaysAtTop(batch, n);
    } else {
      GrownOk(batch, max);
      GrownMore(batch, max);
      GrowsToTop(batch, Grown(batch, max), n - 1);
    }
  }

  lemma TopFacts(batch: int, max: int)
    requires 1 <= batch <= MaxDynamicLength && LimitOk(batch, max)
    ensures var top := MaxDynamicLength - MaxDynamicLength % batch;
      batch <= top <= MaxDynamicLength && top % batch == 0 && max <= top && LimitOk(batch, top)
    ensures max <= MaxDynamicLength
  {
    Multiples(MaxDynamicLength, batch);
    Floors(batch, MaxDynamicLength, batch);
    if max >= batch { Floors(max, MaxDynamicLength, batch); }
  }

  /** Below the top every fetch raises the limit; at the top none does. */
  lemma GrownMore(batch: int, max: int)
    requires 1 <= batch <= MaxDynamicLength && LimitOk(batch, max)
    ensures max < MaxDynamicLength - MaxDynamicLength % batch ==> Grown(batch, max) > max
    ensures max == MaxDynamicLength - MaxDynamicLength % batch ==> Grown(batch, max) == max
  {
    var top := MaxDynamicLength - MaxDynamicLength % batch;
    TopFacts(batch, max);
    GrownOk(batch, max);
    if batch <= max < top { Apart(max, top, batch); }
    if max == top {
      TopFacts(batch, Grown(batch, max));
    }
  }

  lemma Apart(m: int, n: int, b: int)
    requires b >= 1 && m % b == 0 && n % b == 0 && m < n
    ensures m + b <= n
  {
    var p, q := m / b, n / b;
    assert m == p * b && n == q * b;
    assert q <= p ==> q * b <= p * b;
    assert q >= p + 1 ==> q * b >= (p + 1) * b;
  }

  lemma {:induction false} StaysAtTop(batch: int, n: nat)
    requires 1 <= batch <= MaxDynamicLength
    ensures var top := MaxDynamicLength - MaxDynamicLength % batch; GrownTimes(batch, top, n) == top
    decreases n
  {
    hide Grown;
    var top := MaxDynamicLength - MaxDynamicLength % batch;
    Multiples(MaxDynamicLength, batch);
    Floors(batch, MaxDynamicLength, batch);
    GrownMore(batch, top);
    if n > 0 { StaysAtTop(batch, n - 1); }
  }

  lemma Floors(m: int, n: int, b: int)
    requires 0 <= m <= n && b >= 1 && m % b == 0
    ensures m <= n - n % b
  {
    var p, q := m / b, n / b;
    assert p > q ==> p * b >= (q + 1) * b;
  }

  lemma LessBatch(max: int, b: int)
    requires b >= 1 && max > b && max % b == 0
    ensures max - b >= b && (max - b) % b == 0
  {
    var q := max / b;
    assert max == q * b;
    assert q <= 1 ==> q * b <= b;
    assert q * b - b == (q - 1) * b && (q - 1) * b >= b;
    Multiple(q - 1, b);
  }

  // ---------------------------------------------------------------- chains sent to the central lists

  /** A chain cut into full batches and a rest. */
  function Batches(q: seq<Addr>, b: int): seq<seq<Addr>>
    requires b >= 1
    decreases |q|
  {
    if |q| <= b then [q] else [q[..b]] + Batches(q[b..], b)
  }

  ghost function Flat(chains: seq<seq<Addr>>): seq<Addr> {
    if chains == [] then [] else chains[0] + Flat(chains[1..])
  }

  /** Nothing is lost in the cutting, and all chains but the last are full batches. */
  lemma {:induction false} BatchesWhole(q: seq<Addr>, b: int)
    requires b >= 1
    ensures Flat(Batches(q, b)) == q && |Batches(q, b)| >= 1
    ensures forall j :: 0 <= j < |Batches(q, b)| - 1 ==> |Batches(q, b)[j]| == b
    ensures |Batches(q, b)[|Batches(q, b)| - 1]| <= b
    decreases |q|
  {
    if |q| > b {
      BatchesWhole(q[b..], b);
      assert Batches(q, b)[1..] == Batches(q[b..], b);
      assert q[..b] + q[b..] == q;
    } else {
      assert [q][1..] == [];
    }
  }

  /** Cutting off one more batch after the chains already cut. */
  lemma BatchStep(chains: seq<seq<Addr>>, q: seq<Addr>, b: int)
    requires b >= 1 && |q| > b
    ensures chains + Batches(q, b) == (chains + [q[..b]]) + Batches(q[b..], b)
  {
  }

  lemma LastBatch(q: seq<Addr>, b: int)
    requires b >= 1 && |q| <= b
    ensures Batches(q, b) == [q]
  {
  }

  /** All objects of class `k` sent to the central lists. */
  ghost function SentOf(sent: seq<(int, seq<seq<Addr>>)>, k: int): multiset<Addr> {
    if sent == [] then multiset{} else
      var (cl, chains) := sent[|sent| - 1];
      SentOf(sent[..|sent| - 1], k) + (if cl == k then multiset(Flat(chains)) else multiset{})
  }

  lemma SendOne(sent: seq<(int, seq<seq<Addr>>)>, cl: int, q: seq<Addr>, b: int, k: int)
    requires b >= 1
    ensures SentOf(sent + [(cl, Batches(q, b))], k) == SentOf(sent, k) + (if cl == k then multiset(q) else multiset{})
  {
    BatchesWhole(q, b);
    assert (sent + [(cl, Batches(q, b))])[..|sent|] == sent;
  }

  /** The objects of class `k` on the list or sent away: what the thread has had and not handed out. */
  ghost function Kept(lists: seq<FreeList>, sent: seq<(int, seq<seq<Addr>>)>, k: int): multiset<Addr>
    requires 0 <= k < |lists|
  {
    multiset(lists[k].chain) + SentOf(sent, k)
  }

  lemma SameChains(was: seq<FreeList>, now: seq<FreeList>, sent: seq<(int, seq<seq<Addr>>)>)
    requires |was| == |now| && forall k :: 0 <= k < |was| ==> now[k].chain == was[k].chain
    ensures forall k :: 0 <= k < |was| ==> Kept(now, sent, k) == Kept(was, sent, k)
  {
  }

  /** What is popped comes from the front; the low-water mark is the least length there has been. */
  lemma PopExact(l: FreeList, n: int)
    requires 0 <= n <= |l.chain| == l.length && 0 <= l.lowater <= l.length
    ensures var m := l.PopRange(n);
      && l.chain[..n] + m.chain == l.chain && m.length == |m.chain| && m.lowater == Lesser(l.lowater, m.length)
      && m.maxLength == l.maxLength && m.overages == l.overages && m.objectSize == l.objectSize
  {
    assert l.chain[..n] + l.chain[n..] == l.chain;
  }

  lemma PopTwice(l: FreeList, a: int, b: int)
    requires 0 <= a && 0 <= b && a + b <= |l.chain|
    ensures l.PopRange(a).PopRange(b) == l.PopRange(a + b)
  {
  }

  // ---------------------------------------------------------------- bytes

  function BytesOf(l: FreeList): int { l.length * l.objectSize }

  ghost function Bytes(lists: seq<FreeList>): int {
    if lists == [] then 0 else Bytes(lists[..|lists| - 1]) + BytesOf(lists[|lists| - 1])
  }

  lemma {:induction false} BytesUpdate(q: seq<FreeList>, k: int, l: FreeList)
    requires 0 <= k < |q|
    ensures Bytes(q[k := l]) == Bytes(q) - BytesOf(q[k]) + BytesOf(l)
    decreases |q|
  {
    hide BytesOf;
    var last := |q| - 1;
    if k < last {
      BytesUpdate(q[..last], k, l);
      assert q[k := l][..last] == q[..last][k := l];
    } else {
      assert q[k := l][..last] == q[..last];
    }
  }

  lemma {:induction false} BytesEmpty(q: seq<FreeList>)
    requires forall k :: 0 <= k < |q| ==> q[k].length == 0
    ensures Bytes(q) == 0
  {
    if q != [] { BytesEmpty(q[..|q| - 1]); }
  }

  lemma BytesChange(l: FreeList, n: int, m: FreeList)
    requires m.objectSize == l.objectSize && m.length == l.length + n
    ensures BytesOf(m) == BytesOf(l) + n * l.objectSize
  {
    assert (l.length + n) * l.objectSize == l.length * l.objectSize + n * l.objectSize;
  }

  // ---------------------------------------------------------------- what the operations do to a list

  function Lesser(a: int, b: int): int { if a < b then a else b }

  /** The list and its limit after more objects than the limit have been freed. */
  function TooLong(k: Class, l: FreeList): FreeList
    requires k.batch >= 1
  {
    Adapted(k.batch, l.PopRange(Lesser(k.batch, |l.chain|)))
  }

  /** The limit of an overfull list: one more below the batch size, a batch less after too many overages above it. */
  function Adapted(batch: int, l: FreeList): FreeList {
    if l.maxLength < batch then l.(maxLength := l.maxLength + 1)
    else if l.maxLength > batch then
      if l.overages + 1 > MaxOverages then l.(maxLength := l.maxLength - batch, overages := 0)
      else l.(overages := l.overages + 1)
    else l
  }

  lemma TooLongOk(k: Class, l: FreeList, o: Addr)
    requires k.Ok() && k.batch <= MaxDynamicLength && ListOk(k, l)
    ensures ListOk(k, TooLong(k, l.Push(o)))
  {
    if l.maxLength > k.batch { LessBatch(l.maxLength, k.batch); }
    if l.maxLength < k.batch { SmallOrSame(k.batch, l.maxLength + 1); }
  }

  function Freed(k: Class, l: FreeList, o: Addr): FreeList
    requires k.batch >= 1
  {
    if l.length + 1 > l.maxLength then TooLong(k, l.Push(o)) else l.Push(o)
  }

  function Drop(lowmark: int): int { if lowmark > 1 then lowmark / 2 else 1 }

  /** A scavenged list: half of what was not needed goes, and the limit shrinks by a batch. */
  function Scavenged(k: Class, l: FreeList): FreeList {
    var m := if 0 < l.lowater <= |l.chain| then l.PopRange(Drop(l.lowater)) else l;
    var n := if l.lowater > 0 && m.maxLength > k.batch
             then m.(maxLength := if m.maxLength - k.batch > k.batch then m.maxLength - k.batch else k.batch) else m;
    n.(lowater := n.length)
  }

  /** What an overfull list becomes: it loses a batch from the front, or all it has; its limit moves towards the
      batch size, by one from below, and from above by a whole batch at every fourth overage. */
  lemma TooLongExact(k: Class, l: FreeList)
    requires k.Ok() && l.length == |l.chain| && 0 <= l.lowater <= l.length && 0 <= l.overages <= MaxOverages
    ensures var m := TooLong(k, l);
      && (exists gone :: gone + m.chain == l.chain && |gone| == Lesser(k.batch, l.length))
      && m.length == |m.chain| && m.lowater == Lesser(l.lowater, m.length) && m.objectSize == l.objectSize
      && (l.maxLength < k.batch ==> m.maxLength - l.maxLength == 1 && m.overages == l.overages)
      && (l.maxLength == k.batch ==> m.maxLength == l.maxLength && m.overages == l.overages)
      && (l.maxLength > k.batch && l.overages < MaxOverages ==> m.maxLength == l.maxLength && m.overages - l.overages == 1)
      && (l.maxLength > k.batch && l.overages == MaxOverages ==> l.maxLength - m.maxLength == k.batch && m.overages == 0)
  {
    var b := Lesser(k.batch, |l.chain|);
    assert l.chain[..b] + l.chain[b..] == l.chain;
  }

  /** How far the limit is from the batch size, counted in overfull lists. */
  function Distance(batch: int, max: int, overages: int): int
    requires batch >= 1
  {
    if max <= batch then batch - max else (MaxOverages + 1) * (max / batch - 1) - overages
  }

  lemma AboveBatch(batch: int, max: int)
    requires batch >= 1 && max >= batch && max % batch == 0
    ensures max / batch >= 1 && (max == batch <==> max / batch == 1)
    ensures max > batch ==> max - batch >= batch && (max - batch) / batch == max / batch - 1 && (max - batch) % batch == 0
  {
    var q := max / batch;
    assert max == q * batch;
    assert q <= 0 ==> q * batch <= 0;
    assert q >= 2 ==> q * batch >= 2 * batch;
    if max > batch {
      LessBatch(max, batch);
      assert max - batch == (q - 1) * batch;
      Multiple(q - 1, batch);
      SameMultiple((max - batch) / batch, q - 1, batch);
    }
  }

  /** The limit of a list that keeps overflowing converges on the batch size: every overflow brings it
      one nearer, and there it stays. */
  lemma Converges(k: Class, l: FreeList)
    requires k.Ok() && ListOk(k, l)
    ensures var d, m := Distance(k.batch, l.maxLength, l.overages), Adapted(k.batch, l);
      && d >= 0 && (l.maxLength == k.batch ==> d == 0)
      && (l.maxLength != k.batch ==> d >= 1 && Distance(k.batch, m.maxLength, m.overages) < d)
      && (l.maxLength == k.batch ==> m.maxLength == k.batch)
  {
    if l.maxLength > k.batch { AboveBatch(k.batch, l.maxLength); }
    if l.maxLength > k.batch && l.maxLength - k.batch > k.batch { AboveBatch(k.batch, l.maxLength - k.batch); }
  }

  /** What a free does to the list: the object comes first, and the list is too long exactly when it is
      then longer than its limit. */
  lemma FreedExact(k: Class, l: FreeList, o: Addr)
    requires k.Ok() && ListOk(k, l)
    ensures var m := Freed(k, l, o);
      && (|l.chain| < l.maxLength ==> m.chain == [o] + l.chain && m == l.(chain := m.chain, length := |m.chain|))
      && (|l.chain| >= l.maxLength ==> exists gone :: gone + m.chain == [o] + l.chain && |gone| == Lesser(k.batch, l.length + 1))
  {
    if |l.chain| >= l.maxLength { TooLongExact(k, l.Push(o)); }
  }

  /** What a scavenge takes: half of the low-water mark, rounded down but at least one, from the front; the
      limit gives up a batch, but not more than what is above one; and the mark starts again at the length. */
  lemma ScavengedExact(k: Class, l: FreeList)
    requires k.Ok() && ListOk(k, l)
    ensures var m := Scavenged(k, l);
      && (exists gone :: gone + m.chain == l.chain && |gone| == l.length - m.length) && m.length == |m.chain|
      && (var d := l.length - m.length;
          && (l.lowater == 0 ==> d == 0) && (l.lowater == 1 ==> d == 1)
          && (l.lowater >= 2 ==> 2 * d <= l.lowater <= 2 * d + 1))
      && m.lowater == m.length && m.overages == l.overages && m.objectSize == l.objectSize
      && (l.lowater == 0 || l.maxLength <= k.batch ==> m.maxLength == l.maxLength)
      && (l.lowater > 0 && l.maxLength > k.batch ==> m.maxLength >= k.batch && l.maxLength - m.maxLength == k.batch)
  {
    if l.maxLength > k.batch { LessBatch(l.maxLength, k.batch); }
    var m := Scavenged(k, l);
    var d := l.length - m.length;
    assert l.chain[..d] + l.chain[d..] == l.chain;
  }

  /** What a fetch leaves on an empty list: all but the first object, in order, and no mark. */
  lemma StockedExact(k: Class, l: FreeList, q: seq<Addr>)
    requires k.Ok() && k.batch <= MaxDynamicLength && ListOk(k, l) && l.chain == []
    ensures var m := Stocked(k.batch, l, q);
      && m.chain == q && m.length == |q| && m.lowater == 0 && m.overages == l.overages && m.objectSize == l.objectSize
      && (l.maxLength < k.batch ==> m.maxLength == l.maxLength + 1)
      && (l.maxLength >= k.batch ==> m.maxLength % k.batch == 0)
      && (l.maxLength >= k.batch ==> m.maxLength <= Lesser(l.maxLength + k.batch, MaxDynamicLength) < m.maxLength + k.batch)
  {
    hide Grown;
    GrownOk(k.batch, l.maxLength);
    assert q + [] == q;
  }

  lemma ScavengedOk(k: Class, l: FreeList)
    requires k.Ok() && ListOk(k, l)
    ensures ListOk(k, Scavenged(k, l))
  {
    if l.maxLength > k.batch { LessBatch(l.maxLength, k.batch); }
    SmallOrSame(k.batch, k.batch);
  }

  class ThreadCache {
    const cfg: seq<Class>
    const lists: array<FreeList>
    var size: int
    ghost var sent: seq<(int, seq<seq<Addr>>)>    // releases to the central lists: class and chains

    ghost predicate Valid()
      reads this, lists
    {
      && ClassesOk(cfg) && lists.Length == |cfg|
      && (forall k :: 0 <= k < |cfg| ==> ListOk(cfg[k], lists[k]))
      && size == Bytes(lists[..])
    }

    constructor (classes: seq<Class>)
      requires ClassesOk(classes)
      ensures Valid() && cfg == classes && size == 0 && sent == [] && fresh(lists)
      ensures forall k :: 0 <= k < |cfg| ==> lists[k].chain == [] && lists[k].maxLength == 1 && lists[k].overages == 0
    {
      cfg := classes;
      lists := new FreeList[|classes|](k requires 0 <= k < |classes| => NewList(classes[k].size));
      size := 0;
      sent := [];
      new;
      BytesEmpty(lists[..]);
    }

    /** Replaces the list of class `cl` and accounts for its bytes. */
    ghost predicate Becomes(was: seq<FreeList>, cl: int, l: FreeList)
      requires 0 <= cl < |was|
      reads lists
    {
      lists[..] == was[cl := l]
    }

    lemma AccountFor(was: seq<FreeList>, cl: int, l: FreeList)
      requires 0 <= cl < |was| == |cfg| == lists.Length && Becomes(was, cl, l)
      ensures Bytes(lists[..]) == Bytes(was) - BytesOf(was[cl]) + BytesOf(l)
      ensures forall k :: 0 <= k < |cfg| && k != cl ==> lists[k] == was[k]
      ensures lists[cl] == l
    {
      hide BytesOf;
      BytesUpdate(was, cl, l);
      assert forall k :: 0 <= k < |cfg| ==> lists[k] == lists[..][k];
    }

    /** Sends the first `n` objects, or all if there are fewer, to the central list in batches. */
    method ReleaseToCentralCache(cl: int, n: int)
      requires ClassesOk(cfg) && 0 <= cl < |cfg| == lists.Length && n >= 0
      requires lists[cl].lowater <= lists[cl].length == |lists[cl].chain|
      modifies this`size, this`sent, lists
      ensures var l, b := old(lists[cl]), Lesser(n, |old(lists[cl]).chain|);
        && Becomes(old(lists[..]), cl, l.PopRange(b))
        && size == old(size) - b * cfg[cl].size
        && sent == old(sent) + [(cl, Batches(l.chain[..b], cfg[cl].batch))]
      ensures forall k :: 0 <= k < |cfg| ==> Kept(lists[..], sent, k) == old(Kept(lists[..], sent, k))
    {
      hide Batches, SentOf;
      ghost var was, l := lists[..], lists[cl];
      var left := if n > lists[cl].length then lists[cl].length else n;
      var delta := left * cfg[cl].size;
      ghost var chains := PopBatches(cl, left);
      sent := sent + [(cl, chains)];
      size := size - delta;
      ReleaseKeeps(was, old(sent), cl, left);
    }

    lemma ReleaseKeeps(was: seq<FreeList>, before: seq<(int, seq<seq<Addr>>)>, cl: int, n: int)
      requires ClassesOk(cfg) && 0 <= cl < |cfg| == lists.Length == |was| && 0 <= n <= |was[cl].chain|
      requires Becomes(was, cl, was[cl].PopRange(n))
      requires sent == before + [(cl, Batches(was[cl].chain[..n], cfg[cl].batch))]
      ensures forall k :: 0 <= k < |cfg| ==> Kept(lists[..], sent, k) == Kept(was, before, k)
    {
      hide Batches, SentOf;
      var q := was[cl].chain;
      assert q == q[..n] + q[n..];
      forall k | 0 <= k < |cfg| ensures Kept(lists[..], sent, k) == Kept(was, before, k) {
        SendOne(before, cl, q[..n], cfg[cl].batch, k);
      }
    }

    /** The loop of the release: full batches, then the rest. */
    method PopBatches(cl: int, n: int) returns (ghost chains: seq<seq<Addr>>)
      requires 0 <= cl < |cfg| == lists.Length && cfg[cl].batch >= 1
      requires lists[cl].lowater <= lists[cl].length == |lists[cl].chain| && 0 <= n <= lists[cl].length
      modifies lists
      ensures Becomes(old(lists[..]), cl, old(lists[cl]).PopRange(n))
      ensures chains == Batches(old(lists[cl]).chain[..n], cfg[cl].batch)
    {
      hide Batches;
      var src, left, batch := lists[cl], n, cfg[cl].batch;
      ghost var l := src;
      chains := [];
      assert l.PopRange(0) == l;
      while left > batch
        invariant 0 <= left <= n && src == l.PopRange(n - left)
        invariant chains + Batches(l.chain[n - left..n], batch) == Batches(l.chain[..n], batch)
        modifies {}
      {
        ghost var rest := l.chain[n - left..n];
        PopTwice(l, n - left, batch);
        BatchStep(chains, rest, batch);
        chains := chains + [rest[..batch]];
        assert rest[batch..] == l.chain[n - left + batch..n];
        src := src.PopRange(batch);
        left := left - batch;
      }
      PopTwice(l, n - left, left);
      LastBatch(l.chain[n - left..n], batch);
      chains := chains + [l.chain[n - left..n]];
      lists[cl] := src.PopRange(left);
    }

    /** Takes an object from the list, or fetches a batch when the list is empty.
        `central` is all the central list could give; it gives as many as are asked for, or all. */
    method Allocate(cl: int, central: seq<Addr>) returns (r: Option<Addr>)
      requires Valid() && 0 <= cl < |cfg|
      modifies this`size, lists
      ensures Valid() && forall k :: 0 <= k < |cfg| && k != cl ==> lists[k] == old(lists[k])
      ensures var q := old(lists[cl]).chain;
        if q != [] then r == Some(q[0]) && lists[cl] == old(lists[cl]).PopRange(1)
        else if central == [] then r == None && lists[cl] == old(lists[cl])
        else
          var n := Lesser(Lesser(old(lists[cl]).maxLength, cfg[cl].batch), |central|);
          n >= 1 && r == Some(central[0]) && lists[cl] == Stocked(cfg[cl].batch, old(lists[cl]), central[1..n])
    {
      hide BytesOf, Bytes, ClassesOk;
      var l := lists[cl];
      assert ListOk(cfg[cl], l);
      if l.chain == [] {
        r := FetchFromCentralCache(cl, central);
        return;
      }
      lists[cl] := l.PopRange(1);
      AccountFor(old(lists[..]), cl, lists[cl]);
      BytesChange(l, -1, lists[cl]);
      size := size - l.objectSize;
      return Some(l.chain[0]);
    }

    method FetchFromCentralCache(cl: int, central: seq<Addr>) returns (r: Option<Addr>)
      requires Valid() && 0 <= cl < |cfg| && lists[cl].chain == []
      modifies this`size, lists
      ensures Valid() && forall k :: 0 <= k < |cfg| && k != cl ==> lists[k] == old(lists[k])
      ensures central == [] ==> r == None && lists[cl] == old(lists[cl])
      ensures central != [] ==>
                var n := Lesser(Lesser(old(lists[cl]).maxLength, cfg[cl].batch), |central|);
                n >= 1 && r == Some(central[0]) && lists[cl] == Stocked(cfg[cl].batch, old(lists[cl]), central[1..n])
    {
      hide BytesOf, Bytes, Grown;
      var l, batch := lists[cl], cfg[cl].batch;
      assert ListOk(cfg[cl], l);
      var n := if l.maxLength < batch then l.maxLength else batch;
      var supply := if |central| < n then central else central[..n];
      if supply == [] {
        return None;
      }
      assert supply[1..] == central[1..|supply|];
      GrownOk(batch, l.maxLength);
      var count := |supply| - 1;
      size := size + l.objectSize * count;
      var m := l.PushRange(count, supply[1..]);
      lists[cl] := m.(maxLength := Grown(batch, l.maxLength));
      AccountFor(old(lists[..]), cl, lists[cl]);
      BytesChange(l, count, lists[cl]);
      return Some(supply[0]);
    }

    /** Puts a freed object on its list.  `limit` is the byte limit of this thread at that moment. */
    method Deallocate(o: Addr, cl: int, limit: int)
      requires Valid() && 0 <= cl < |cfg|
      modifies this`size, this`sent, lists
      ensures Valid()
      ensures var mid := old(lists[..])[cl := Freed(cfg[cl], old(lists[cl]), o)];
        forall k :: 0 <= k < |cfg| ==> lists[k] == if Bytes(mid) > limit then Scavenged(cfg[k], mid[k]) else mid[k]
      ensures forall k :: 0 <= k < |cfg| ==>
                Kept(lists[..], sent, k) == old(Kept(lists[..], sent, k)) + (if k == cl then multiset{o} else multiset{})
    {
      hide BytesOf, Bytes, SentOf, TooLong, Scavenged;
      var l := lists[cl];
      assert ListOk(cfg[cl], l);
      lists[cl] := l.Push(o);
      assert multiset([o] + l.chain) == multiset(l.chain) + multiset{o};
      if lists[cl].length > lists[cl].maxLength {
        TooLongOk(cfg[cl], l, o);
        ListTooLong(cl, old(lists[..]));
      } else {
        AccountFor(old(lists[..]), cl, lists[cl]);
        BytesChange(l, 1, lists[cl]);
        size := size + l.objectSize;
      }
      if size > limit {
        Scavenge();
      }
    }

    /** Sends a batch away and adapts the limit. */
    method ListTooLong(cl: int, ghost was: seq<FreeList>)
      requires ClassesOk(cfg) && 0 <= cl < |cfg| == lists.Length == |was|
      requires forall k :: 0 <= k < |cfg| ==> ListOk(cfg[k], was[k])
      requires size == Bytes(was) && exists o :: Becomes(was, cl, was[cl].Push(o))
      requires ListOk(cfg[cl], TooLong(cfg[cl], lists[cl]))
      modifies this`size, this`sent, lists
      ensures Valid() && Becomes(was, cl, TooLong(cfg[cl], old(lists[cl])))
      ensures forall k :: 0 <= k < |cfg| ==> Kept(lists[..], sent, k) == old(Kept(lists[..], sent, k))
    {
      hide BytesOf, Bytes, Kept, Batches, Adapted, ListOk;
      ListFacts(cfg[cl], was[cl]);
      assert lists[cl] == lists[..][cl];
      size := size + lists[cl].objectSize;
      ghost var l := lists[cl].PopRange(Lesser(cfg[cl].batch, |lists[cl].chain|));
      ReleaseToCentralCache(cl, cfg[cl].batch);
      assert lists[cl] == lists[..][cl];
      AdaptLimit(cl);
      AccountFor(was, cl, lists[cl]);
      BytesChange(was[cl], lists[cl].length - was[cl].length, lists[cl]);
    }

    method AdaptLimit(cl: int)
      requires 0 <= cl < |cfg| == lists.Length
      modifies lists
      ensures Becomes(old(lists[..]), cl, Adapted(cfg[cl].batch, old(lists[cl]))) && lists[cl] == Adapted(cfg[cl].batch, old(lists[cl]))
      ensures lists[cl].length == old(lists[cl]).length && lists[cl].objectSize == old(lists[cl]).objectSize
      ensures forall k :: 0 <= k < |cfg| ==> Kept(lists[..], sent, k) == Kept(old(lists[..]), sent, k)
    {
      hide Kept;
      var l, batch := lists[cl], cfg[cl].batch;
      if l.maxLength < batch {
        lists[cl] := l.(maxLength := l.maxLength + 1);
      } else if l.maxLength > batch {
        lists[cl] := l.(overages := l.overages + 1);
        if lists[cl].overages > MaxOverages {
          lists[cl] := l.(maxLength := l.maxLength - batch, overages := 0);
        }
      }
      SameChains(old(lists[..]), lists[..], sent);
    }

    method Scavenge()
      requires Valid()
      modifies this`size, this`sent, lists
      ensures Valid() && forall k :: 0 <= k < |cfg| ==> lists[k] == Scavenged(cfg[k], old(lists[k]))
      ensures forall k :: 0 <= k < |cfg| ==> Kept(lists[..], sent, k) == old(Kept(lists[..], sent, k))
    {
      hide BytesOf, Bytes, Scavenged, Kept;
      var cl := 0;
      while cl < |cfg|
        invariant 0 <= cl <= |cfg| && Valid()
        invariant forall k :: 0 <= k < cl ==> lists[k] == Scavenged(cfg[k], old(lists[k]))
        invariant forall k :: cl <= k < |cfg| ==> lists[k] == old(lists[k])
        invariant forall k :: 0 <= k < |cfg| ==> Kept(lists[..], sent, k) == old(Kept(lists[..], sent, k))
      {
        ScavengeList(cl);
        cl := cl + 1;
      }
    }

    method ScavengeList(cl: int)
      requires Valid() && 0 <= cl < |cfg|
      modifies this`size, this`sent, lists
      ensures Valid() && lists[cl] == Scavenged(cfg[cl], old(lists[cl]))
      ensures forall k :: 0 <= k < |cfg| && k != cl ==> lists[k] == old(lists[k])
      ensures forall k :: 0 <= k < |cfg| ==> Kept(lists[..], sent, k) == old(Kept(lists[..], sent, k))
    {
      hide BytesOf, Bytes, Kept, Batches;
      var l := lists[cl];
      assert ListOk(cfg[cl], l);
      ScavengedOk(cfg[cl], l);
      var m := l;
      if l.lowater > 0 {
        ReleaseToCentralCache(cl, Drop(l.lowater));
        assert lists[cl] == lists[..][cl];
        m := lists[cl];
        if m.maxLength > cfg[cl].batch {
          var less := m.maxLength - cfg[cl].batch;
          m := m.(maxLength := if less > cfg[cl].batch then less else cfg[cl].batch);
        }
      }
      ghost var mid := lists[..];
      lists[cl] := m.(lowater := m.length);
      SameChains(mid, lists[..], sent);
      AccountFor(old(lists[..]), cl, lists[cl]);
      BytesChange(l, lists[cl].length - l.length, lists[cl]);
    }

    /** The end of a thread: every object goes back. */
    method Destroy()
      requires Valid()
      modifies this`size, this`sent, lists
      ensures Valid() && size == 0
      ensures forall k :: 0 <= k < |cfg| ==> lists[k].chain == [] && SentOf(sent, k) == old(Kept(lists[..], sent, k))
    {
      hide BytesOf, Bytes, SentOf, Batches;
      var cl := 0;
      while cl < |cfg|
        invariant 0 <= cl <= |cfg| && Valid()
        invariant forall k :: 0 <= k < cl ==> lists[k].chain == []
        invariant forall k :: 0 <= k < |cfg| ==> Kept(lists[..], sent, k) == old(Kept(lists[..], sent, k))
      {
        ghost var was, l := lists[..], lists[cl];
        assert ListOk(cfg[cl], l);
        if lists[cl].length > 0 {
          ReleaseToCentralCache(cl, lists[cl].length);
          AccountFor(was, cl, l.PopRange(l.length));
          BytesChange(l, -l.length, lists[cl]);
        }
        cl := cl + 1;
      }
      forall k | 0 <= k < |cfg| ensures lists[..][k].length == 0 { assert ListOk(cfg[k], lists[k]); }
      BytesEmpty(lists[..]);
    }
  }
}
