/** The direct-mapped cache of small values, one machine word per entry: the high bits of
    the key, an invalid bit and the value. */
module PackedCaches {
  import opened Spans

  type Word = bv64
  type Value = v: bv64 | v < 0x80
  type Words = bv16 -> Word            // the array, by its 16-bit index

  const InvalidBit: Word := 0x80
  const ClearedWord: Word := 0x8080_8080_8080_8080

  /** The entry a key belongs to. */
  function Hash(key: Word): bv16 { (key & 0xFFFF) as bv16 }

  function Upper(key: Word): Word { key ^ (key & 0xFFFF) }

  /** What an entry says about a key. */
  function Decode(entry: Word, key: Word): Option<Value> {
    var x := entry ^ (key & !0xFFFF);
    if x >= 0x80 then None else Some(x)
  }

  function Get(words: Words, key: Word): Option<Value> { Decode(words(Hash(key)), key) }

  function Write(words: Words, i: bv16, w: Word): Words { j => if j == i then w else words(j) }

  function PutIn(words: Words, key: Word, value: Value): Words { Write(words, Hash(key), Upper(key) | value) }

  function InvalidateIn(words: Words, key: Word): Words { Write(words, Hash(key), Upper(key) | InvalidBit) }

  lemma DecodeOwn(a: Word, v: Value)
    ensures Decode(Upper(a) | v, a) == Some(v)
  {
  }

  lemma DecodeOther(a: Word, b: Word, v: Value)
    requires Hash(a) == Hash(b) && a != b
    ensures Decode(Upper(a) | v, b) == None
  {
  }

  lemma DecodeInvalid(a: Word, b: Word)
    ensures Decode(Upper(a) | InvalidBit, b) == None && Decode(ClearedWord, b) == None
  {
  }

  /** A put sets its key, drops every other key with the same low bits and leaves the rest. */
  lemma GetPut(words: Words, key: Word, value: Value, k: Word)
    ensures Get(PutIn(words, key, value), k) ==
            if k == key then Some(value) else if Hash(k) == Hash(key) then None else Get(words, k)
  {
    hide Decode, Upper;
    if k == key {
      DecodeOwn(key, value);
    } else if Hash(k) == Hash(key) {
      DecodeOther(key, k, value);
    }
  }

  /** An invalidation drops every key with the low bits of its key and leaves the rest. */
  lemma GetInvalidate(words: Words, key: Word, k: Word)
    ensures Get(InvalidateIn(words, key), k) == if Hash(k) == Hash(key) then None else Get(words, k)
  {
    hide Decode, Upper;
    DecodeInvalid(key, k);
  }

  class PackedCache {
    var words: Words

    constructor ()
      ensures forall k: Word :: Get(words, k) == None
    {
      words := _ => 0;
      new;
      Clear();
    }

    method TryGet(key: Word) returns (hit: bool, value: Value)
      ensures hit == Get(words, key).Some?
      ensures hit ==> value == Get(words, key).value
    {
      var x := words(Hash(key)) ^ (key & !0xFFFF);
      if x >= 0x80 {
        return false, 0;
      }
      return true, x;
    }

    method Clear()
      modifies this
      ensures forall k: Word :: Get(words, k) == None
    {
      hide Decode;
      words := _ => ClearedWord;
      forall k: Word ensures Get(words, k) == None { DecodeInvalid(k, k); }
    }

    method Put(key: Word, value: Value)
      modifies this
      ensures forall k: Word :: Get(words, k) ==
                if k == key then Some(value) else if Hash(k) == Hash(key) then None else Get(old(words), k)
    {
      hide Get, PutIn;
      words := PutIn(words, key, value);
      forall k: Word ensures Get(words, k) ==
          if k == key then Some(value) else if Hash(k) == Hash(key) then None else Get(old(words), k)
      {
        GetPut(old(words), key, value, k);
      }
    }

    method Invalidate(key: Word)
      modifies this
      ensures forall k: Word :: Get(words, k) == if Hash(k) == Hash(key) then None else Get(old(words), k)
    {
      hide Get, InvalidateIn;
      words := InvalidateIn(words, key);
      forall k: Word ensures Get(words, k) == if Hash(k) == Hash(key) then None else Get(old(words), k) {
        GetInvalidate(old(words), key, k);
      }
    }
  }

  // ---------------------------------------------------------------- page numbers as words

  function Bit(w: Word): int { if w & 1 == 1 then 1 else 0 }

  /** The number a word stands for. */
  ghost function Number(w: Word): int
    decreases w
  {
    if w == 0 then 0 else 2 * Number(w >> 1) + Bit(w)
  }

  lemma {:induction false} NumberPositive(w: Word)
    ensures Number(w) >= 0 && (w != 0 ==> Number(w) >= 1)
    decreases w
  {
    if w != 0 {
      NumberPositive(w >> 1);
      assert w >> 1 == 0 ==> w & 1 == 1;
    }
  }

  lemma Halve(w: Word)
    ensures Number(w) >= 2 * Number(w >> 1)
  {
    assert w == 0 ==> w >> 1 == 0;
  }

  lemma Halve2(w: Word) ensures Number(w) >= 4 * Number(w >> 2)
  {
    hide Number;
    Halve(w);
    Halve(w >> 1);
    assert (w >> 1) >> 1 == w >> 2;
  }

  lemma Halve4(w: Word) ensures Number(w) >= 0x10 * Number(w >> 4)
  {
    hide Number;
    Halve2(w);
    Halve2(w >> 2);
    assert (w >> 2) >> 2 == w >> 4;
  }

  lemma Halve8(w: Word) ensures Number(w) >= 0x100 * Number(w >> 8)
  {
    hide Number;
    Halve4(w);
    Halve4(w >> 4);
    assert (w >> 4) >> 4 == w >> 8;
  }

  lemma Halve16(w: Word) ensures Number(w) >= 0x1_0000 * Number(w >> 16)
  {
    hide Number;
    Halve8(w);
    Halve8(w >> 8);
    assert (w >> 8) >> 8 == w >> 16;
  }

  lemma Halve32(w: Word) ensures Number(w) >= 0x1_0000_0000 * Number(w >> 32)
  {
    hide Number;
    Halve16(w);
    Halve16(w >> 16);
    assert (w >> 16) >> 16 == w >> 32;
  }

  lemma Halve48(w: Word) ensures Number(w) >= 0x1_0000_0000_0000 * Number(w >> 48)
  {
    hide Number;
    Halve32(w);
    Halve16(w >> 32);
    assert (w >> 32) >> 16 == w >> 48;
  }

  /** A word with its top bit set is too large for a page number. */
  lemma TopBit(w: Word)
    requires w >= 0x8000_0000_0000_0000
    ensures Number(w) >= PageLimit
  {
    hide Number;
    Halve48(w);
    Halve8(w >> 48);
    assert (w >> 48) >> 8 == w >> 56 && w >> 56 != 0;
    NumberPositive(w >> 56);
  }

  /** The word of a page number. */
  ghost function Key(p: PageId): (w: Word)
    requires 0 <= p < PageLimit
    ensures Number(w) == p
    decreases p
  {
    if p == 0 then 0 else
      var h := Key(p / 2);
      assert h < 0x8000_0000_0000_0000 by { if h >= 0x8000_0000_0000_0000 { TopBit(h); } }
      Append(h, p % 2);
      if p % 2 == 1 then (h << 1) | 1 else h << 1
  }

  lemma Append(h: Word, b: int)
    requires h < 0x8000_0000_0000_0000 && (b == 0 || b == 1)
    ensures Number(if b == 1 then (h << 1) | 1 else h << 1) == 2 * Number(h) + b
  {
    hide Number;
    var w := if b == 1 then (h << 1) | 1 else h << 1;
    assert h << 1 != (h << 1) | 1;
    ShiftBack(h, w);
    LastBit(h, w);
    NumberStep(w);
  }

  lemma ShiftBack(h: Word, w: Word)
    requires h < 0x8000_0000_0000_0000 && (w == h << 1 || w == (h << 1) | 1)
    ensures w >> 1 == h
  {
  }

  lemma LastBit(h: Word, w: Word)
    requires w == h << 1 || w == (h << 1) | 1
    ensures w & 1 == 1 <==> w == (h << 1) | 1
  {
  }

  lemma NumberStep(w: Word)
    ensures Number(w) == 2 * Number(w >> 1) + Bit(w)
  {
    assert w == 0 ==> w >> 1 == 0 && w & 1 == 0;
  }

  lemma SmallKey(w: Word)
    requires Number(w) < 0x80
    ensures w < 0x80
  {
    hide Number;
    if w >= 0x80 {
      Halve4(w);
      Halve2(w >> 4);
      Halve(w >> 6);
      assert (w >> 4) >> 2 == w >> 6 && (w >> 6) >> 1 == w >> 7 && w >> 7 != 0;
      NumberPositive(w >> 7);
    }
  }
}
