/** A map from addresses to values: a hash table of clusters, each an array of
    blocks, each a list of entries. */
module AddressMaps {
  import opened Spans

  type Key = int

  const BlockSize: int := 128
  const ClusterBlocks: int := 8192
  const HashSize: int := 4096
  const AddressLimit: int := 0x1_0000_0000_0000_0000

  datatype Entry<V> = Entry(key: Key, value: V)
  datatype Cluster<V> = Cluster(id: int, blocks: seq<seq<Entry<V>>>)
  type Table<V> = seq<seq<Cluster<V>>>

  /** Block number of an address over the whole address space. */
  function BlockNo(a: Key): int { a / BlockSize }
  function ClusterId(a: Key): int { BlockNo(a) / ClusterBlocks }
  function BlockId(a: Key): int { BlockNo(a) % ClusterBlocks }

  /** Multiplicative hash: the top 12 of the low 32 bits of the product. */
  function HashInt(x: int): (h: int)
    ensures 0 <= h < HashSize
  {
    ((x % 0x1_0000_0000) * 2654435769 % 0x1_0000_0000) / 0x10_0000
  }

  // ---------------------------------------------------------------- lookup

  /** Position of the first cluster with this id, or the length of the chain. */
  function Position<V>(chain: seq<Cluster<V>>, id: int): (p: int)
    ensures 0 <= p <= |chain|
    ensures p < |chain| ==> chain[p].id == id
    ensures forall j :: 0 <= j < p ==> chain[j].id != id
  {
    if chain == [] then 0 else if chain[0].id == id then 0 else 1 + Position(chain[1..], id)
  }

  ghost predicate ClusterOk<V>(c: Cluster<V>, h: int) {
    |c.blocks| == ClusterBlocks && HashInt(c.id) == h && 0 <= c.id < AddressLimit / (ClusterBlocks * BlockSize)
  }

  ghost predicate DistinctIds<V>(chain: seq<Cluster<V>>) {
    forall a, b :: 0 <= a < b < |chain| ==> chain[a].id != chain[b].id
  }

  ghost predicate Shaped<V>(t: Table<V>) {
    && |t| == HashSize
    && (forall h, j :: 0 <= h < HashSize && 0 <= j < |t[h]| ==> ClusterOk(t[h][j], h))
    && (forall h :: 0 <= h < HashSize ==> DistinctIds(t[h]))
  }

  /** The list of entries of the block that holds address `a`. */
  ghost function BlockAt<V>(t: Table<V>, a: Key): seq<Entry<V>>
    requires Shaped(t)
  {
    var chain := t[HashInt(ClusterId(a))];
    var p := Position(chain, ClusterId(a));
    if p < |chain| then
      assert ClusterOk(chain[p], HashInt(ClusterId(a)));
      chain[p].blocks[BlockId(a)]
    else []
  }

  ghost predicate KeysOk<V>(q: seq<Entry<V>>, block: int) {
    && (forall j :: 0 <= j < |q| ==> BlockNo(q[j].key) == block && 0 <= q[j].key < AddressLimit)
    && (forall a, b :: 0 <= a < b < |q| ==> q[a].key != q[b].key)
  }

  /** Value stored for a key in a list of entries. */
  function Lookup<V>(q: seq<Entry<V>>, key: Key): Option<V> {
    if q == [] then None else if q[0].key == key then Some(q[0].value) else Lookup(q[1..], key)
  }

  function Get<V>(m: map<Key, V>, key: Key): Option<V> {
    if key in m then Some(m[key]) else None
  }

  lemma {:induction false} LookupFinds<V>(q: seq<Entry<V>>, block: int, j: int)
    requires KeysOk(q, block) && 0 <= j < |q|
    ensures Lookup(q, q[j].key) == Some(q[j].value)
  {
    if j > 0 {
      assert q[0].key != q[j].key;
      LookupFinds(q[1..], block, j - 1);
    }
  }

  lemma {:induction false} LookupMisses<V>(q: seq<Entry<V>>, key: Key)
    requires forall j :: 0 <= j < |q| ==> q[j].key != key
    ensures Lookup(q, key) == None
  {
    if q != [] { LookupMisses(q[1..], key); }
  }

  /** The table stores exactly the map `m`. */
  ghost predicate Stores<V(!new)>(t: Table<V>, m: map<Key, V>) {
    && Shaped(t)
    && (forall a :: 0 <= a < AddressLimit ==> KeysOk(BlockAt(t, a), BlockNo(a)))
    && (forall a :: 0 <= a < AddressLimit ==> Lookup(BlockAt(t, a), a) == Get(m, a))
    && (forall a :: a in m ==> 0 <= a < AddressLimit)
  }

  // ---------------------------------------------------------------- update of one block

  function NewCluster<V>(id: int): Cluster<V> {
    Cluster(id, seq(ClusterBlocks, _ => []))
  }

  /** The table with the list of `a`'s block replaced; a missing cluster is put in front of its chain. */
  ghost function SetBlock<V>(t: Table<V>, a: Key, q: seq<Entry<V>>): Table<V>
    requires Shaped(t) && 0 <= a < AddressLimit
  {
    var id := ClusterId(a);
    var chain := t[HashInt(id)];
    var p := Position(chain, id);
    if p < |chain| then
      assert ClusterOk(chain[p], HashInt(id));
      t[HashInt(id) := chain[p := chain[p].(blocks := chain[p].blocks[BlockId(a) := q])]]
    else
      var c: Cluster<V> := NewCluster(id);
      t[HashInt(id) := [c.(blocks := c.blocks[BlockId(a) := q])] + chain]
  }

  lemma PositionIs<V>(chain: seq<Cluster<V>>, id: int, p: int)
    requires 0 <= p <= |chain| && (p < |chain| ==> chain[p].id == id)
    requires forall j :: 0 <= j < p ==> chain[j].id != id
    ensures Position(chain, id) == p
  {
  }

  lemma SetBlockShaped<V>(t: Table<V>, a: Key, q: seq<Entry<V>>)
    requires Shaped(t) && 0 <= a < AddressLimit
    ensures Shaped(SetBlock(t, a, q))
  {
    hide HashInt, Position;
    assert 0 <= ClusterId(a) < AddressLimit / (ClusterBlocks * BlockSize);
    hide ClusterId;
    var u := SetBlock(t, a, q);
    var h := HashInt(ClusterId(a));
    var chain := t[h];
    var p := Position(chain, ClusterId(a));
    forall g, j | 0 <= g < HashSize && 0 <= j < |u[g]| ensures ClusterOk(u[g][j], g) {
      if g != h {
        assert ClusterOk(t[g][j], g);
      } else if p < |chain| {
        assert ClusterOk(t[g][j], g);
      } else if j > 0 {
        assert ClusterOk(t[g][j - 1], g);
      }
    }
    forall g | 0 <= g < HashSize ensures DistinctIds(u[g]) {
      assert DistinctIds(t[g]);
    }
  }

  lemma SetBlockAt<V>(t: Table<V>, a: Key, q: seq<Entry<V>>, x: Key)
    requires Shaped(t) && 0 <= a < AddressLimit && Shaped(SetBlock(t, a, q))
    ensures BlockAt(SetBlock(t, a, q), x) == if BlockNo(x) == BlockNo(a) then q else BlockAt(t, x)
  {
    hide HashInt, DistinctIds;
    var u := SetBlock(t, a, q);
    var id, ix := ClusterId(a), ClusterId(x);
    var h := HashInt(id);
    var chain, next := t[h], u[h];
    var p := Position(chain, id);
    if HashInt(ix) == h {
      if p < |chain| {
        PositionIs(next, ix, Position(chain, ix));
      } else if ix == id {
        PositionIs(next, ix, 0);
      } else {
        PositionIs(next, ix, Position(chain, ix) + 1);
      }
    }
  }

  /** Overwrites the entry of `key`, or puts a new one in front. */
  function Upsert<V>(q: seq<Entry<V>>, key: Key, value: V): seq<Entry<V>> {
    var j := IndexOf(q, key);
    if j < |q| then q[j := Entry(key, value)] else [Entry(key, value)] + q
  }

  function Without<V>(q: seq<Entry<V>>, key: Key): seq<Entry<V>> {
    var j := IndexOf(q, key);
    if j < |q| then q[..j] + q[j + 1..] else q
  }

  /** Position of the first entry with this key, or the length of the list. */
  function IndexOf<V>(q: seq<Entry<V>>, key: Key): (j: int)
    ensures 0 <= j <= |q| && (j < |q| ==> q[j].key == key)
    ensures forall i :: 0 <= i < j ==> q[i].key != key
  {
    if q == [] then 0 else if q[0].key == key then 0 else 1 + IndexOf(q[1..], key)
  }

  lemma LookupIs<V>(q: seq<Entry<V>>, block: int, key: Key)
    requires KeysOk(q, block)
    ensures Lookup(q, key) == if IndexOf(q, key) < |q| then Some(q[IndexOf(q, key)].value) else None
  {
    var j := IndexOf(q, key);
    if j < |q| { LookupFinds(q, block, j); } else { LookupMisses(q, key); }
  }

  /** Two lists with distinct keys and the same entry for `x` (or none) answer alike. */
  lemma SameLookup<V>(q: seq<Entry<V>>, r: seq<Entry<V>>, b: int, x: Key)
    requires KeysOk(q, b) && KeysOk(r, b)
    requires forall i :: 0 <= i < |q| && q[i].key == x ==> exists j :: 0 <= j < |r| && r[j] == q[i]
    requires forall j :: 0 <= j < |r| && r[j].key == x ==> exists i :: 0 <= i < |q| && q[i] == r[j]
    ensures Lookup(q, x) == Lookup(r, x)
  {
    LookupIs(q, b, x);
    LookupIs(r, b, x);
    var i, j := IndexOf(q, x), IndexOf(r, x);
    if i < |q| {
      var k :| 0 <= k < |r| && r[k] == q[i];
      assert r[k].key == x;
    }
  }

  lemma UpsertKeeps<V>(q: seq<Entry<V>>, block: int, key: Key, value: V, x: Key)
    requires KeysOk(q, block) && BlockNo(key) == block && 0 <= key < AddressLimit
    ensures KeysOk(Upsert(q, key, value), block)
    ensures Lookup(Upsert(q, key, value), x) == if x == key then Some(value) else Lookup(q, x)
  {
    hide Lookup;
    var r, j := Upsert(q, key, value), IndexOf(q, key);
    if j < |q| {
      assert KeysOk(r, block);
      LookupFinds(r, block, j);
      if x != key {
        forall i | 0 <= i < |q| && q[i].key == x ensures exists k :: 0 <= k < |r| && r[k] == q[i] { assert r[i] == q[i]; }
        forall i | 0 <= i < |r| && r[i].key == x ensures exists k :: 0 <= k < |q| && q[k] == r[i] { assert q[i] == r[i]; }
        SameLookup(q, r, block, x);
      }
    } else {
      LookupFirst(q, key, value, x);
    }
  }

  lemma LookupFirst<V>(q: seq<Entry<V>>, key: Key, value: V, x: Key)
    ensures Lookup([Entry(key, value)] + q, x) == if x == key then Some(value) else Lookup(q, x)
  {
    assert ([Entry(key, value)] + q)[1..] == q;
  }

  lemma WithoutKeeps<V>(q: seq<Entry<V>>, block: int, key: Key, x: Key)
    requires KeysOk(q, block)
    ensures KeysOk(Without(q, key), block)
    ensures Lookup(Without(q, key), x) == if x == key then None else Lookup(q, x)
  {
    var r, j := Without(q, key), IndexOf(q, key);
    if j < |q| {
      forall i | 0 <= i < |r| ensures r[i] == q[if i < j then i else i + 1] {}
      assert KeysOk(r, block);
      if x == key {
        LookupMisses(r, key);
      } else {
        forall i | 0 <= i < |q| && q[i].key == x ensures exists k :: 0 <= k < |r| && r[k] == q[i] {
          assert r[if i < j then i else i - 1] == q[i];
        }
        SameLookup(q, r, block, x);
      }
    } else {
      LookupIs(q, block, key);
    }
  }

  /** Replacing one block's list by an edited one changes the stored map at one key. */
  lemma StoresEdit<V(!new)>(t: Table<V>, m: map<Key, V>, key: Key, q: seq<Entry<V>>, n: map<Key, V>)
    requires Stores(t, m) && 0 <= key < AddressLimit && KeysOk(q, BlockNo(key))
    requires forall x :: Lookup(q, x) == if x == key then Get(n, key) else Lookup(BlockAt(t, key), x)
    requires forall x :: x != key ==> Get(n, x) == Get(m, x)
    ensures Stores(SetBlock(t, key, q), n)
  {
    hide HashInt, Lookup, Position, KeysOk, SetBlock, BlockAt, Shaped;
    SetBlockShaped(t, key, q);
    var u := SetBlock(t, key, q);
    forall a | 0 <= a < AddressLimit ensures KeysOk(BlockAt(u, a), BlockNo(a)) && Lookup(BlockAt(u, a), a) == Get(n, a) {
      SetBlockAt(t, key, q, a);
      SameBlock(t, key, a);
    }
    forall a | a in n ensures 0 <= a < AddressLimit {
      if a != key { assert Get(n, a) == Get(m, a); }
    }
  }

  lemma SameBlock<V>(t: Table<V>, a: Key, b: Key)
    requires Shaped(t)
    ensures BlockNo(a) == BlockNo(b) ==> BlockAt(t, a) == BlockAt(t, b)
  {
  }

  // ---------------------------------------------------------------- the map

  /** A stored range starts at, or contains, address `a`. */
  predicate Inside<V>(m: map<Key, V>, size: V -> int, k: Key, a: Key) {
    k in m && k <= a && (k == a || a < k + size(m[k]))
  }

  /** Stored ranges do not overlap (an empty range may lie between two others), are
      no longer than `maxSize`, and end with the address space or before. */
  ghost predicate Ranges<V>(m: map<Key, V>, size: V -> int, maxSize: int) {
    && (forall k :: k in m ==> 0 <= size(m[k]) <= maxSize && k + size(m[k]) <= AddressLimit)
    && (forall k, l :: k in m && l in m && k < l ==> k + size(m[k]) <= l)
  }

  /** The ranges FindInside can find for `a`: a range up to the very top of the address space
      counts for its first address only. */
  predicate Findable<V>(m: map<Key, V>, size: V -> int, k: Key, a: Key) {
    Inside(m, size, k, a) && (k == a || k + size(m[k]) != AddressLimit)
  }

  /** What FindInside tests of one entry; the end of the range is computed in 64 bits. */
  predicate Reaches<V>(e: Entry<V>, size: V -> int, key: Key) {
    e.key <= key && (e.key == key || key < (e.key + size(e.value)) % AddressLimit)
  }

  /** The last address of the block before that of `num`. */
  lemma BlockBefore(num: Key)
    requires num >= 0
    ensures (num / BlockSize) * BlockSize + (BlockSize - 1) - BlockSize == BlockNo(num) * BlockSize - 1
    ensures BlockNo(num) * BlockSize - 1 < num
    ensures BlockId(num) != 0 ==>
      0 <= BlockNo(num) * BlockSize - 1 && ClusterId(BlockNo(num) * BlockSize - 1) == ClusterId(num)
    ensures BlockId(num) == 0 ==> BlockNo(num) * BlockSize == ClusterStart(num)
  {
  }

  function ClusterStart(num: Key): Key { ClusterId(num) * ClusterBlocks * BlockSize }

  lemma ClusterBefore(num: Key)
    requires num >= 0
    ensures var c := ClusterBlocks * BlockSize; (num / c) * c + (c - 1) - c == ClusterStart(num) - 1
    ensures 0 <= ClusterStart(num) <= num
    ensures num < ClusterBlocks * BlockSize <==> ClusterStart(num) == 0
  {
  }

  class AddressMap<V(!new)> {
    var table: Table<V>
    ghost var contents: map<Key, V>

    ghost predicate Valid()
      reads this
    {
      Stores(table, contents)
    }

    constructor ()
      ensures Valid() && contents == map[]
    {
      table := seq(HashSize, _ => []);
      contents := map[];
    }

    /** The first cluster of the chain for `id`, or one past its end. */
    method FindCluster(id: int) returns (p: int)
      requires |table| == HashSize
      ensures p == Position(table[HashInt(id)], id)
    {
      hide HashInt;
      var chain := table[HashInt(id)];
      p := 0;
      while p < |chain| && chain[p].id != id
        invariant 0 <= p <= |chain|
        invariant forall j :: 0 <= j < p ==> chain[j].id != id
      {
        p := p + 1;
      }
      PositionIs(chain, id, p);
    }

    /** Walks the entries of one block for `key`. */
    static method FindEntry(q: seq<Entry<V>>, key: Key) returns (j: int)
      ensures j == IndexOf(q, key)
    {
      j := 0;
      while j < |q| && q[j].key != key
        invariant 0 <= j <= |q|
        invariant forall i :: 0 <= i < j ==> q[i].key != key
      {
        j := j + 1;
      }
    }

    method Find(key: Key) returns (r: Option<V>)
      requires Valid() && 0 <= key < AddressLimit
      ensures r == Get(contents, key)
    {
      hide HashInt, Lookup, Position;
      var chain := table[HashInt(ClusterId(key))];
      var p := FindCluster(ClusterId(key));
      LookupIs(BlockAt(table, key), BlockNo(key), key);
      if p < |chain| {
        assert ClusterOk(chain[p], HashInt(ClusterId(key)));
        var q := chain[p].blocks[BlockId(key)];
        var j := FindEntry(q, key);
        if j < |q| {
          return Some(q[j].value);
        }
      }
      return None;
    }

    method Insert(key: Key, value: V)
      requires Valid() && 0 <= key < AddressLimit
      modifies this
      ensures Valid() && contents == old(contents)[key := value]
    {
      hide HashInt, Lookup, Position, KeysOk, Stores, DistinctIds;
      StoresShaped(table, contents);
      StoresKeys(key);
      var id, b := ClusterId(key), BlockId(key);
      var h := HashInt(id);
      var chain := table[h];
      var p := FindCluster(id);
      var c: Cluster<V> := if p < |chain| then chain[p] else NewCluster(id);
      assert p < |chain| ==> ClusterOk(chain[p], h);
      var q := c.blocks[b];
      assert q == BlockAt(table, key);
      var j := FindEntry(q, key);
      var r := if j < |q| then q[j := Entry(key, value)] else [Entry(key, value)] + q;
      UpsertKeeps(q, BlockNo(key), key, value, key);
      forall x ensures Lookup(r, x) == if x == key then Some(value) else Lookup(q, x) {
        UpsertKeeps(q, BlockNo(key), key, value, x);
      }
      ghost var n := contents[key := value];
      StoresEdit(table, contents, key, r, n);
      c := c.(blocks := c.blocks[b := r]);
      table := table[h := if p < |chain| then chain[p := c] else [c] + chain];
      contents := n;
    }

    method FindAndRemove(key: Key) returns (r: Option<V>)
      requires Valid() && 0 <= key < AddressLimit
      modifies this
      ensures Valid() && r == Get(old(contents), key) && contents == old(contents) - {key}
    {
      hide HashInt, Lookup, Position, KeysOk, Stores, DistinctIds;
      StoresShaped(table, contents);
      StoresKeys(key);
      StoresLookup(key);
      var id, b := ClusterId(key), BlockId(key);
      var h := HashInt(id);
      var chain := table[h];
      var p := FindCluster(id);
      LookupIs(BlockAt(table, key), BlockNo(key), key);
      if p < |chain| {
        assert ClusterOk(chain[p], h);
        var q := chain[p].blocks[b];
        var j := FindEntry(q, key);
        if j < |q| {
          r := Some(q[j].value);
          var rest := q[..j] + q[j + 1..];
          WithoutKeeps(q, BlockNo(key), key, key);
          forall x ensures Lookup(rest, x) == if x == key then None else Lookup(q, x) {
            WithoutKeeps(q, BlockNo(key), key, x);
          }
          ghost var n := contents - {key};
          StoresEdit(table, contents, key, rest, n);
          ghost var t := SetBlock(table, key, rest);
          table := table[h := chain[p := chain[p].(blocks := chain[p].blocks[b := rest])]];
          assert table == t;
          contents := n;
          return;
        }
      }
      r := None;
      assert contents - {key} == contents;
    }

    /** One block of FindInside: an entry whose range holds `key`, and whether any entry starts at or before it. */
    static method ScanBlock(q: seq<Entry<V>>, size: V -> int, key: Key) returns (hit: Option<int>, smaller: bool)
      ensures hit.Some? ==> 0 <= hit.value < |q| && Reaches(q[hit.value], size, key)
      ensures hit.None? ==> forall j :: 0 <= j < |q| ==> !Reaches(q[j], size, key)
      ensures hit.None? ==> (smaller <==> exists j :: 0 <= j < |q| && q[j].key <= key)
    {
      hit, smaller := None, false;
      var j := 0;
      while j < |q|
        invariant 0 <= j <= |q| && hit.None?
        invariant forall i :: 0 <= i < j ==> !Reaches(q[i], size, key)
        invariant smaller <==> exists i :: 0 <= i < j && q[i].key <= key
      {
        if q[j].key <= key {
          if q[j].key == key || key < (q[j].key + size(q[j].value)) % AddressLimit {
            return Some(j), smaller;
          }
          smaller := true;
        }
        j := j + 1;
      }
    }

    /** All stored keys up to `key` are at most `num`. */
    ghost predicate NoneAbove(num: Key, key: Key)
      reads this
    {
      forall k :: k in contents && k <= key ==> k <= num
    }

    /** The stored range that starts at, or contains, `key`, found walking back block by block
        and cluster by cluster; missed exactly if it contains `key` and ends at the very top. */
    method FindInside(size: V -> int, maxSize: int, key: Key) returns (r: Option<Key>)
      requires Valid() && 0 <= key < AddressLimit && Ranges(contents, size, maxSize)
      ensures r.Some? ==> Findable(contents, size, r.value, key)
      ensures r.None? ==> forall k :: !Findable(contents, size, k, key)
    {
      hide HashInt, Lookup, Position, Stores, Findable, Ranges, ClusterId, BlockId, BlockNo, ClusterStart;
      var num := key;
      while true
        invariant 0 <= num <= key && NoneAbove(num, key)
        decreases num
      {
        ghost var top := num;
        StoresShaped(table, contents);
        var id := ClusterId(num);
        var p := FindCluster(id);
        var chain := table[HashInt(id)];
        ClusterBefore(num);
        if p < |chain| {
          var c := chain[p];
          assert ClusterOk(c, HashInt(id));
          while true
            invariant 0 <= num <= top && NoneAbove(num, key) && ClusterId(num) == id
            decreases num
          {
            var block := BlockId(num);
            BlockIdRange(num);
            var q := c.blocks[block];
            assert q == BlockAt(table, num);
            var hit, smaller := ScanBlock(q, size, key);
            if hit.Some? {
              HitIsInside(size, maxSize, key, num, hit.value);
              return Some(q[hit.value].key);
            }
            if smaller {
              NothingBefore(size, maxSize, key, num);
              return None;
            }
            BlockPassed(key, num);
            BlockBefore(num);
            if block == 0 {
              break;
            }
            num := (num / BlockSize) * BlockSize + (BlockSize - 1) - BlockSize;
            if key - num > maxSize {
              TooFar(size, maxSize, key, num);
              return None;
            }
          }
        } else {
          ClusterPassed(key, num);
        }
        SameClusterStart(top, num);
        ClusterBefore(num);
        var clusterSize := ClusterBlocks * BlockSize;
        if num < clusterSize {
          NothingLeft(size, key);
          return None;
        }
        num := (num / clusterSize) * clusterSize + (clusterSize - 1) - clusterSize;
        if key - num > maxSize {
          TooFar(size, maxSize, key, num);
          return None;
        }
      }
    }

    lemma BlockIdRange(num: Key)
      ensures 0 <= BlockId(num) < ClusterBlocks
    {
    }

    lemma SameClusterStart(a: Key, b: Key)
      ensures ClusterId(a) == ClusterId(b) ==> ClusterStart(a) == ClusterStart(b)
    {
    }

    lemma StoresShaped(t: Table<V>, m: map<Key, V>)
      requires Stores(t, m)
      ensures Shaped(t)
    {
    }

    /** Stored keys of a block are entries of its list, and the other way round. */
    lemma BlockHolds(num: Key, k: Key)
      requires Valid() && 0 <= num < AddressLimit && Shaped(table)
      ensures k in contents && BlockNo(k) == BlockNo(num) ==>
                exists j :: 0 <= j < |BlockAt(table, num)| && BlockAt(table, num)[j] == Entry(k, contents[k])
    {
      if k in contents && BlockNo(k) == BlockNo(num) {
        SameBlock(table, num, k);
        var q := BlockAt(table, num);
        LookupIs(q, BlockNo(k), k);
        assert q[IndexOf(q, k)] == Entry(k, contents[k]);
      }
    }

    lemma EntryStored(num: Key, j: int)
      requires Valid() && 0 <= num < AddressLimit && Shaped(table) && 0 <= j < |BlockAt(table, num)|
      ensures var e := BlockAt(table, num)[j]; e.key in contents && contents[e.key] == e.value && BlockNo(e.key) == BlockNo(num)
    {
      var q := BlockAt(table, num);
      assert BlockNo(q[j].key) == BlockNo(num) && 0 <= q[j].key < AddressLimit;
      SameBlock(table, num, q[j].key);
      LookupFinds(q, BlockNo(num), j);
    }

    lemma HitIsInside(size: V -> int, maxSize: int, key: Key, num: Key, j: int)
      requires Valid() && 0 <= num < AddressLimit && Shaped(table) && Ranges(contents, size, maxSize)
      requires 0 <= j < |BlockAt(table, num)| && Reaches(BlockAt(table, num)[j], size, key)
      ensures Findable(contents, size, BlockAt(table, num)[j].key, key)
    {
      hide Stores, BlockAt;
      EntryStored(num, j);
    }

    /** An entry before `key` that does not reach it hides everything further down. */
    lemma NothingBefore(size: V -> int, maxSize: int, key: Key, num: Key)
      requires Valid() && 0 <= num < AddressLimit && Shaped(table) && Ranges(contents, size, maxSize) && NoneAbove(num, key)
      requires forall j :: 0 <= j < |BlockAt(table, num)| ==> !Reaches(BlockAt(table, num)[j], size, key)
      requires exists j :: 0 <= j < |BlockAt(table, num)| && BlockAt(table, num)[j].key <= key
      ensures forall k :: !Findable(contents, size, k, key)
    {
      hide Stores, BlockAt;
      var j :| 0 <= j < |BlockAt(table, num)| && BlockAt(table, num)[j].key <= key;
      EntryStored(num, j);
      forall k ensures !Findable(contents, size, k, key) {
        BlockHolds(num, k);
      }
    }

    lemma BlockPassed(key: Key, num: Key)
      requires Valid() && 0 <= num <= key && num < AddressLimit && Shaped(table) && NoneAbove(num, key)
      requires forall j :: 0 <= j < |BlockAt(table, num)| ==> BlockAt(table, num)[j].key > key
      ensures NoneAbove(BlockNo(num) * BlockSize - 1, key)
    {
      hide Stores, BlockAt;
      forall k | k in contents && k <= key ensures k <= BlockNo(num) * BlockSize - 1 {
        BlockHolds(num, k);
      }
    }

    lemma ClusterPassed(key: Key, num: Key)
      requires Valid() && 0 <= num <= key && num < AddressLimit && Shaped(table) && NoneAbove(num, key)
      requires var chain := table[HashInt(ClusterId(num))]; Position(chain, ClusterId(num)) == |chain|
      ensures NoneAbove(ClusterStart(num) - 1, key)
    {
      hide HashInt, Position, Lookup;
      forall k | k in contents && k <= key ensures k <= ClusterStart(num) - 1 {
        LookupIs(BlockAt(table, k), BlockNo(k), k);
        assert ClusterId(k) != ClusterId(num);
      }
    }

    lemma TooFar(size: V -> int, maxSize: int, key: Key, num: Key)
      requires Valid() && Ranges(contents, size, maxSize) && NoneAbove(num, key) && key - num > maxSize
      ensures forall k :: !Findable(contents, size, k, key)
    {
      hide Stores;
    }

    lemma NothingLeft(size: V -> int, key: Key)
      requires Valid() && NoneAbove(-1, key)
      ensures forall k :: !Findable(contents, size, k, key)
    {
    }

    // -------------------------------------------------------------- iteration

    /** The block of `k` comes before block `b` of cluster `j` of chain `h` in the order of iteration. */
    ghost predicate Seen(k: Key, h: int, j: int, b: int)
      requires Shaped(table)
      reads this
    {
      var g := HashInt(ClusterId(k));
      var p := Position(table[g], ClusterId(k));
      g < h || (g == h && (p < j || (p == j && BlockId(k) < b)))
    }

    /** `out` lists, once each, exactly the stored pairs seen so far. */
    ghost predicate Collected(out: seq<Entry<V>>, h: int, j: int, b: int)
      requires Shaped(table)
      reads this
    {
      && (forall i :: 0 <= i < |out| ==> out[i].key in contents && contents[out[i].key] == out[i].value && Seen(out[i].key, h, j, b))
      && (forall k :: k in contents && Seen(k, h, j, b) ==> exists i :: 0 <= i < |out| && out[i].key == k)
      && (forall x, y :: 0 <= x < y < |out| ==> out[x].key != out[y].key)
    }

    lemma BlockIsAt(h: int, j: int, b: int) returns (a: Key)
      requires Valid() && 0 <= h < HashSize && 0 <= j < |table[h]| && 0 <= b < ClusterBlocks
      ensures 0 <= a < AddressLimit && ClusterId(a) == table[h][j].id && BlockId(a) == b
      ensures HashInt(ClusterId(a)) == h && Position(table[h], ClusterId(a)) == j
      ensures |table[h][j].blocks| == ClusterBlocks && BlockAt(table, a) == table[h][j].blocks[b]
    {
      hide HashInt, KeysOk, Lookup;
      assert ClusterOk(table[h][j], h);
      assert DistinctIds(table[h]);
      a := (table[h][j].id * ClusterBlocks + b) * BlockSize;
      PositionIs(table[h], table[h][j].id, j);
    }

    lemma CollectBlock(out: seq<Entry<V>>, h: int, j: int, b: int)
      requires Valid() && 0 <= h < HashSize && 0 <= j < |table[h]| && 0 <= b < ClusterBlocks && Collected(out, h, j, b)
      ensures |table[h][j].blocks| == ClusterBlocks && Collected(out + table[h][j].blocks[b], h, j, b + 1)
    {
      hide HashInt, Position, BlockAt, Stores, Lookup, Shaped;
      var a := BlockIsAt(h, j, b);
      StoresShaped(table, contents);
      var q := table[h][j].blocks[b];
      var r := out + q;
      assert KeysOk(q, BlockNo(a)) by { StoresKeys(a); }
      forall i | 0 <= i < |r| ensures r[i].key in contents && contents[r[i].key] == r[i].value && Seen(r[i].key, h, j, b + 1) {
        if i >= |out| { EntryStored(a, i - |out|); }
      }
      forall k | k in contents && Seen(k, h, j, b + 1) ensures exists i :: 0 <= i < |r| && r[i].key == k {
        if Seen(k, h, j, b) {
          var i :| 0 <= i < |out| && out[i].key == k;
          assert r[i].key == k;
        } else {
          assert ClusterId(k) == ClusterId(a) by { SamePlace(k, a, h, j); }
          BlockHolds(a, k);
          var i :| 0 <= i < |q| && q[i] == Entry(k, contents[k]);
          assert r[|out| + i].key == k;
        }
      }
      forall x, y | 0 <= x < y < |r| ensures r[x].key != r[y].key {
        if x < |out| <= y { EntryStored(a, y - |out|); }
      }
    }

    lemma StoresKeys(a: Key)
      requires Valid() && Shaped(table) && 0 <= a < AddressLimit
      ensures KeysOk(BlockAt(table, a), BlockNo(a))
    {
    }

    lemma StoresLookup(a: Key)
      requires Valid() && Shaped(table) && 0 <= a < AddressLimit
      ensures Lookup(BlockAt(table, a), a) == Get(contents, a)
    {
    }

    lemma SamePlace(k: Key, a: Key, h: int, j: int)
      requires Shaped(table) && 0 <= h < HashSize && 0 <= j < |table[h]|
      requires HashInt(ClusterId(k)) == h && HashInt(ClusterId(a)) == h
      requires Position(table[h], ClusterId(k)) == j && Position(table[h], ClusterId(a)) == j
      ensures ClusterId(k) == ClusterId(a)
    {
      hide HashInt, Shaped;
    }

    /** Past the last block of a cluster, and past the last cluster of a chain. */
    lemma CollectNext(out: seq<Entry<V>>, h: int, j: int)
      requires Valid() && 0 <= h < HashSize && Shaped(table)
      ensures Collected(out, h, j, ClusterBlocks) ==> Collected(out, h, j + 1, 0)
      ensures Collected(out, h, |table[h]|, 0) ==> Collected(out, h + 1, 0, 0)
    {
      hide HashInt, Stores;
      forall k ensures Seen(k, h, j, ClusterBlocks) <==> Seen(k, h, j + 1, 0) {}
      forall k | k in contents ensures Seen(k, h, |table[h]|, 0) <==> Seen(k, h + 1, 0, 0) { StoredSomewhere(k); }
    }

    lemma StoredSomewhere(k: Key)
      requires Valid() && Shaped(table) && k in contents
      ensures Position(table[HashInt(ClusterId(k))], ClusterId(k)) < |table[HashInt(ClusterId(k))]|
    {
      hide HashInt, Lookup, Position;
      LookupIs(BlockAt(table, k), BlockNo(k), k);
    }

    /** Visits every stored pair exactly once. */
    method Iterate() returns (out: seq<Entry<V>>)
      requires Valid()
      ensures forall k, v :: Entry(k, v) in out <==> k in contents && contents[k] == v
      ensures forall x, y :: 0 <= x < y < |out| ==> out[x].key != out[y].key
    {
      hide HashInt, Stores, Shaped, Collected;
      StoresShaped(table, contents);
      assert |table| == HashSize by { TableSize(); }
      out := [];
      var h := 0;
      assert Collected(out, 0, 0, 0) by { CollectNone(); }
      while h < HashSize
        invariant 0 <= h <= HashSize && Collected(out, h, 0, 0)
      {
        var j := 0;
        while j < |table[h]|
          invariant 0 <= j <= |table[h]| && Collected(out, h, j, 0)
        {
          var b := 0;
          while b < ClusterBlocks
            invariant 0 <= b <= ClusterBlocks && Collected(out, h, j, b)
          {
            CollectBlock(out, h, j, b);
            out := out + table[h][j].blocks[b];
            b := b + 1;
          }
          CollectNext(out, h, j);
          j := j + 1;
        }
        CollectNext(out, h, 0);
        h := h + 1;
      }
      CollectedAll(out);
    }

    lemma TableSize()
      requires Valid()
      ensures |table| == HashSize
    {
    }

    lemma CollectNone()
      requires Valid() && Shaped(table)
      ensures Collected([], 0, 0, 0)
    {
      hide HashInt, Stores;
    }

    lemma CollectedAll(out: seq<Entry<V>>)
      requires Valid() && Shaped(table) && Collected(out, HashSize, 0, 0)
      ensures forall k, v :: Entry(k, v) in out <==> k in contents && contents[k] == v
      ensures forall x, y :: 0 <= x < y < |out| ==> out[x].key != out[y].key
    {
      hide HashInt, Stores;
      forall k, v ensures Entry(k, v) in out <==> k in contents && contents[k] == v {
        if k in contents && contents[k] == v {
          assert Seen(k, HashSize, 0, 0);
          var i :| 0 <= i < |out| && out[i].key == k;
          assert out[i] == Entry(k, v);
        }
      }
    }
  }

  /** A range that ends at the very top of the address space is stored, holds the key, and is missed. */
  method TopRangeMissed() returns (r: Option<Key>)
    ensures var m: map<Key, int> := map[AddressLimit - 16 := 16];
      Ranges(m, v => v, 16) && Inside(m, v => v, AddressLimit - 16, AddressLimit - 8) && r.None?
  {
    var t := new AddressMap<int>();
    t.Insert(AddressLimit - 16, 16);
    assert t.contents == map[AddressLimit - 16 := 16];
    r := t.FindInside(v => v, 16, AddressLimit - 8);
  }
}
