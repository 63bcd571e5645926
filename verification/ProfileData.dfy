/** The collector of CPU profile samples: a small hash table of stack traces whose
    evicted entries go through a buffer to a file of slots. */
module ProfileData {
  import opened Spans

  type Slot = int
  type Trace = seq<Slot>

  const MaxStackDepth: int := 254
  const Associativity: int := 4
  const Buckets: int := 1024
  const BufferLength: int := 0x4_0000
  const SlotLimit: int := 0x1_0000_0000_0000_0000

  /** A trace with the number of times it was hit; an unused entry has neither. */
  datatype Entry = Entry(count: int, stack: Trace)

  predicate RecordOk(e: Entry) { e.count > 0 && 1 <= |e.stack| <= MaxStackDepth }

  // ---------------------------------------------------------------- file format

  function Encode(e: Entry): seq<Slot> { [e.count, |e.stack|] + e.stack }

  function EncodeAll(records: seq<Entry>): seq<Slot> {
    if records == [] then [] else EncodeAll(records[..|records| - 1]) + Encode(records[|records| - 1])
  }

  function Header(period: int): seq<Slot> { [0, 3, 0, period, 0] }

  const Trailer: seq<Slot> := [0, 1, 0]

  /** Reads records up to the end marker. */
  function ParseRecords(s: seq<Slot>): Option<seq<Entry>>
    decreases |s|
  {
    if s == Trailer then Some([])
    else if |s| < 2 || s[0] <= 0 || s[1] < 1 || |s| < 2 + s[1] then None
    else
      var rest := ParseRecords(s[2 + s[1]..]);
      if rest.None? then None else Some([Entry(s[0], s[2..2 + s[1]])] + rest.value)
  }

  /** Reads a whole profile: header, records, end marker. */
  function ParseProfile(s: seq<Slot>): Option<(int, seq<Entry>)> {
    if |s| < 5 || s[0] != 0 || s[1] != 3 || s[2] != 0 || s[4] != 0 then None
    else
      var records := ParseRecords(s[5..]);
      if records.None? then None else Some((s[3], records.value))
  }

  lemma {:induction false} EncodeFront(records: seq<Entry>)
    requires records != []
    ensures EncodeAll(records) == Encode(records[0]) + EncodeAll(records[1..])
    decreases |records|
  {
    hide Encode;
    var last := |records| - 1;
    if last > 0 {
      EncodeFront(records[..last]);
      assert records[..last][1..] == records[1..][..last - 1];
    }
  }

  lemma ParseTrailer()
    ensures ParseRecords(Trailer) == Some([])
  {
  }

  lemma ParseOne(e: Entry, rest: seq<Slot>)
    requires RecordOk(e) && ParseRecords(rest).Some?
    ensures ParseRecords(Encode(e) + rest) == Some([e] + ParseRecords(rest).value)
  {
    var s := Encode(e) + rest;
    assert s[0] == e.count && s[1] == |e.stack|;
    assert s[2 + s[1]..] == rest && s[2..2 + s[1]] == e.stack;
  }

  lemma {:induction false} ParseInverts(records: seq<Entry>)
    requires forall i :: 0 <= i < |records| ==> RecordOk(records[i])
    ensures ParseRecords(EncodeAll(records) + Trailer) == Some(records)
    decreases |records|
  {
    hide Encode, ParseRecords;
    if records == [] {
      assert EncodeAll(records) + Trailer == Trailer;
      ParseTrailer();
    } else {
      var e, tail := records[0], records[1..];
      EncodeFront(records);
      ParseInverts(tail);
      ParseOne(e, EncodeAll(tail) + Trailer);
      assert EncodeAll(records) + Trailer == Encode(e) + (EncodeAll(tail) + Trailer);
      assert [e] + tail == records;
    }
  }

  lemma EncodeMore(records: seq<Entry>, e: Entry)
    ensures EncodeAll(records + [e]) == EncodeAll(records) + Encode(e)
  {
    assert (records + [e])[..|records|] == records;
  }

  lemma ProfileParses(period: int, records: seq<Entry>)
    requires forall i :: 0 <= i < |records| ==> RecordOk(records[i])
    ensures ParseProfile(Header(period) + EncodeAll(records) + Trailer) == Some((period, records))
  {
    hide EncodeAll, ParseRecords, ParseProfile;
    ParseInverts(records);
    var body := EncodeAll(records) + Trailer;
    assert Header(period) + EncodeAll(records) + Trailer == Header(period) + body;
    ParseBody(period, body);
  }

  lemma ParseBody(period: int, body: seq<Slot>)
    requires ParseRecords(body).Some?
    ensures ParseProfile(Header(period) + body) == Some((period, ParseRecords(body).value))
  {
    hide ParseRecords;
    assert (Header(period) + body)[5..] == body;
  }

  // ---------------------------------------------------------------- counting

  function Hits(e: Entry, x: Trace): int { if e.stack == x then e.count else 0 }

  /** Total count of trace `x` in a list of entries. */
  ghost function Tally(q: seq<Entry>, x: Trace): int {
    if q == [] then 0 else Tally(q[..|q| - 1], x) + Hits(q[|q| - 1], x)
  }

  lemma {:induction false} TallyUpdate(q: seq<Entry>, a: int, e: Entry, x: Trace)
    requires 0 <= a < |q|
    ensures Tally(q[a := e], x) == Tally(q, x) - Hits(q[a], x) + Hits(e, x)
    decreases |q|
  {
    var last := |q| - 1;
    if a < last {
      TallyUpdate(q[..last], a, e, x);
      assert q[a := e][..last] == q[..last][a := e];
    } else {
      assert q[a := e][..last] == q[..last];
    }
  }

  ghost function TableTally(t: seq<seq<Entry>>, x: Trace): int {
    if t == [] then 0 else TableTally(t[..|t| - 1], x) + Tally(t[|t| - 1], x)
  }

  lemma {:induction false} TableUpdate(t: seq<seq<Entry>>, b: int, q: seq<Entry>, x: Trace)
    requires 0 <= b < |t|
    ensures TableTally(t[b := q], x) == TableTally(t, x) - Tally(t[b], x) + Tally(q, x)
    decreases |t|
  {
    hide Tally;
    var last := |t| - 1;
    if b < last {
      TableUpdate(t[..last], b, q, x);
      assert t[b := q][..last] == t[..last][b := q];
    } else {
      assert t[b := q][..last] == t[..last];
    }
  }

  lemma {:induction false} TallyZero(q: seq<Entry>, x: Trace)
    requires forall a :: 0 <= a < |q| ==> q[a].count == 0
    ensures Tally(q, x) == 0
  {
    if q != [] { TallyZero(q[..|q| - 1], x); }
  }

  lemma {:induction false} TableZero(t: seq<seq<Entry>>, x: Trace)
    requires forall b, a :: 0 <= b < |t| && 0 <= a < |t[b]| ==> t[b][a].count == 0
    ensures TableTally(t, x) == 0
  {
    if t != [] {
      TallyZero(t[|t| - 1], x);
      TableZero(t[..|t| - 1], x);
    }
  }

  lemma TallyAppend(q: seq<Entry>, e: Entry, x: Trace)
    ensures Tally(q + [e], x) == Tally(q, x) + Hits(e, x)
  {
    assert (q + [e])[..|q|] == q;
  }

  // ---------------------------------------------------------------- the collector

  ghost predicate EntryOk(e: Entry) { e == Entry(0, []) || RecordOk(e) }

  ghost predicate TableOk(t: seq<seq<Entry>>) {
    && |t| == Buckets
    && (forall b :: 0 <= b < Buckets ==> |t[b]| == Associativity)
    && (forall b, a :: 0 <= b < Buckets && 0 <= a < Associativity ==> EntryOk(t[b][a]))
  }

  /** Every sample is in the table or in a record. */
  ghost predicate Accounted(t: seq<seq<Entry>>, records: seq<Entry>, added: multiset<Trace>) {
    forall x :: TableTally(t, x) + Tally(records, x) == added[x]
  }

  /** An entry moves from the table to the records. */
  lemma MoveAccounted(t: seq<seq<Entry>>, records: seq<Entry>, added: multiset<Trace>, b: int, a: int)
    requires TableOk(t) && Accounted(t, records, added) && 0 <= b < Buckets && 0 <= a < Associativity
    ensures var u := t[b := t[b][a := Entry(0, [])]];
      TableOk(u) && Accounted(u, records + [t[b][a]], added)
  {
    hide TableTally, Tally;
    var e := t[b][a];
    var u := t[b := t[b][a := Entry(0, [])]];
    forall x ensures TableTally(u, x) + Tally(records + [e], x) == added[x] {
      TableUpdate(t, b, u[b], x);
      TallyUpdate(t[b], a, Entry(0, []), x);
      TallyAppend(records, e, x);
    }
  }

  /** A sample of trace `x` is counted in an entry that already has it, or in an unused one. */
  lemma HitAccounted(t: seq<seq<Entry>>, records: seq<Entry>, added: multiset<Trace>, b: int, a: int, x: Trace)
    requires TableOk(t) && Accounted(t, records, added) && 0 <= b < Buckets && 0 <= a < Associativity
    requires 1 <= |x| <= MaxStackDepth && (t[b][a].stack == x || t[b][a] == Entry(0, []))
    ensures var u := t[b := t[b][a := Entry(t[b][a].count + 1, x)]];
      TableOk(u) && Accounted(u, records, added + multiset{x})
  {
    hide TableTally, Tally;
    var e := Entry(t[b][a].count + 1, x);
    var u := t[b := t[b][a := e]];
    assert EntryOk(t[b][a]);
    forall y ensures TableTally(u, y) + Tally(records, y) == (added + multiset{x})[y] {
      TableUpdate(t, b, u[b], y);
      TallyUpdate(t[b], a, e, y);
    }
  }

  /** A trace cut to the largest depth that is kept. */
  function Truncated(stack: Trace): Trace {
    if |stack| > MaxStackDepth then stack[..MaxStackDepth] else stack
  }

  /** Rotate left by 8 bits and add, in 64 bits. */
  function HashStep(h: Slot, slot: Slot): (r: Slot)
    requires 0 <= h < SlotLimit
    ensures 0 <= r < SlotLimit
  {
    var rotated := (h * 0x100) % SlotLimit + h / 0x100_0000_0000_0000;
    (rotated + slot * 31 + slot * 7 + slot * 3) % SlotLimit
  }

  function HashOf(x: Trace): (r: Slot)
    ensures 0 <= r < SlotLimit
  {
    if x == [] then 0 else HashStep(HashOf(x[..|x| - 1]), x[|x| - 1])
  }

  class Collector {
    var enabled: bool
    var table: seq<seq<Entry>>
    const evict: array<Slot>
    var numEvicted: int
    var out: seq<Slot>               // slots written to the file since Start
    var count: int
    var evictions: int
    ghost var period: int
    ghost var records: seq<Entry>    // entries evicted since Start
    ghost var added: multiset<Trace> // samples added since Start

    ghost predicate Valid()
      reads this, evict
    {
      && evict.Length == BufferLength && 0 <= numEvicted <= BufferLength
      && (enabled ==>
            && TableOk(table)
            && out + evict[..numEvicted] == Header(period) + EncodeAll(records)
            && (forall i :: 0 <= i < |records| ==> RecordOk(records[i]))
            && Accounted(table, records, added))
    }

    constructor ()
      ensures Valid() && !enabled
    {
      enabled, table, numEvicted, out, count, evictions := false, [], 0, [], 0, 0;
      evict := new Slot[BufferLength];
      period, records, added := 0, [], multiset{};
    }

    method FlushEvicted()
      requires evict.Length == BufferLength && 0 <= numEvicted <= BufferLength
      modifies this`out, this`numEvicted
      ensures numEvicted == 0 && out == old(out + evict[..numEvicted])
    {
      out := out + evict[..numEvicted];
      numEvicted := 0;
    }

    /** Copies slots into the buffer from index `at` on. */
    method CopySlots(at: int, x: Trace)
      requires 0 <= at && at + |x| <= evict.Length
      modifies evict
      ensures evict[..at + |x|] == old(evict[..at]) + x
    {
      var i := 0;
      while i < |x|
        invariant 0 <= i <= |x|
        invariant forall k :: 0 <= k < at ==> evict[k] == old(evict[k])
        invariant forall k :: 0 <= k < i ==> evict[at + k] == x[k]
      {
        evict[at + i] := x[i];
        i := i + 1;
      }
    }

    /** Appends one entry to the buffer, writing the buffer out first if it would not fit. */
    method Evict(e: Entry)
      requires evict.Length == BufferLength && 0 <= numEvicted <= BufferLength && RecordOk(e)
      modifies this`out, this`numEvicted, evict
      ensures 0 <= numEvicted <= BufferLength
      ensures out + evict[..numEvicted] == old(out + evict[..numEvicted]) + Encode(e)
      ensures old(out) <= out
    {
      var d := |e.stack|;
      if numEvicted + d + 2 > BufferLength {
        FlushEvicted();
      }
      ghost var before := evict[..numEvicted];
      var n := numEvicted;
      evict[n], evict[n + 1] := e.count, d;
      assert evict[..n + 2] == before + [e.count, d];
      CopySlots(n + 2, e.stack);
      numEvicted := n + 2 + d;
      assert before + [e.count, d] + e.stack == before + Encode(e);
    }

    /** Begins a profile: the header is the first record of the buffer. */
    method Start(fileOk: bool, frequency: int) returns (ok: bool)
      requires Valid() && frequency != 0
      modifies this, evict
      ensures Valid() && ok == (fileOk && !old(enabled))
      ensures !ok ==> unchanged(this) && unchanged(evict)
      ensures ok ==> enabled && period == 1000000 / frequency && added == multiset{} && out == []
    {
      if enabled || !fileOk {
        return false;
      }
      out, count, evictions := [], 0, 0;
      table := seq(Buckets, _ => seq(Associativity, _ => Entry(0, [])));
      evict[0], evict[1], evict[2], evict[3], evict[4] := 0, 3, 0, 1000000 / frequency, 0;
      numEvicted, enabled := 5, true;
      period, records, added := 1000000 / frequency, [], multiset{};
      assert evict[..5] == Header(period);
      forall x ensures TableTally(table, x) == 0 { TableZero(table, x); }
      return true;
    }

    /** Evicts entry `a` of bucket `b`. */
    method EvictEntry(b: int, a: int)
      requires Valid() && enabled && 0 <= b < Buckets && 0 <= a < Associativity && table[b][a].count > 0
      modifies this`out, this`numEvicted, evict, this`records, this`table
      ensures Valid() && table == old(table)[b := old(table)[b][a := Entry(0, [])]] && old(out) <= out
    {
      hide Accounted, EncodeAll;
      assert EntryOk(table[b][a]);
      var e := table[b][a];
      Evict(e);
      MoveAccounted(table, records, added, b, a);
      EncodeMore(records, e);
      assert (Header(period) + EncodeAll(records)) + Encode(e) == Header(period) + (EncodeAll(records) + Encode(e));
      records := records + [e];
      table := table[b := table[b][a := Entry(0, [])]];
    }

    /** Writes out the whole table; the collector stays enabled. */
    method FlushTable()
      requires Valid()
      modifies this, evict
      ensures Valid() && enabled == old(enabled) && added == old(added) && period == old(period)
      ensures enabled ==> numEvicted == 0 && old(out) <= out
      ensures enabled ==> forall x :: Tally(records, x) == added[x]
    {
      if !enabled {
        return;
      }
      EvictAll();
      FlushEvicted();
      forall x ensures Tally(records, x) == added[x] { TableZero(table, x); }
    }

    /** The loop over buckets and entries of FlushTable and Stop. */
    method EvictAll()
      requires Valid() && enabled
      modifies this`out, this`numEvicted, evict, this`records, this`table
      ensures Valid() && old(out) <= out
      ensures forall b, a :: 0 <= b < Buckets && 0 <= a < Associativity ==> table[b][a].count == 0
    {
      hide Accounted, EncodeAll;
      var b := 0;
      while b < Buckets
        invariant 0 <= b <= Buckets && Valid() && old(out) <= out
        invariant forall c, a :: 0 <= c < b && 0 <= a < Associativity ==> table[c][a].count == 0
        modifies this`out, this`numEvicted, evict, this`records, this`table
      {
        var a := 0;
        while a < Associativity
          invariant 0 <= a <= Associativity && Valid() && old(out) <= out
          invariant forall c, d :: 0 <= c < b && 0 <= d < Associativity ==> table[c][d].count == 0
          invariant forall d :: 0 <= d < a ==> table[b][d].count == 0
          modifies this`out, this`numEvicted, evict, this`records, this`table
        {
          assert EntryOk(table[b][a]);
          if table[b][a].count > 0 {
            EvictEntry(b, a);
          }
          a := a + 1;
        }
        b := b + 1;
      }
    }

    /** Ends a profile: what has been written decodes to the header and to records whose
        counts add up, trace by trace, to the samples added since Start. */
    method Stop()
      requires Valid()
      modifies this, evict
      ensures Valid() && !enabled
      ensures old(enabled) ==>
                && ParseProfile(out).Some? && ParseProfile(out).value.0 == old(period)
                && forall x :: Tally(ParseProfile(out).value.1, x) == old(added)[x]
      ensures !old(enabled) ==> out == old(out)
    {
      if !enabled {
        return;
      }
      EvictAll();
      forall x ensures Tally(records, x) == added[x] { TableZero(table, x); }
      Finish();
      ProfileParses(period, records);
      enabled := false;
    }

    /** Writes the end marker and everything still in the buffer. */
    method Finish()
      requires evict.Length == BufferLength && 0 <= numEvicted <= BufferLength
      modifies this`out, this`numEvicted, evict
      ensures numEvicted == 0 && out == old(out + evict[..numEvicted]) + Trailer
    {
      if numEvicted + 3 > BufferLength {
        FlushEvicted();
      }
      ghost var before := evict[..numEvicted];
      var n := numEvicted;
      evict[n], evict[n + 1], evict[n + 2] := 0, 1, 0;
      numEvicted := n + 3;
      assert evict[..numEvicted] == before + Trailer;
      FlushEvicted();
    }

    /** Hash of a trace. */
    static method Hash(x: Trace) returns (h: Slot)
      ensures h == HashOf(x)
    {
      h := 0;
      var i := 0;
      while i < |x|
        invariant 0 <= i <= |x| && h == HashOf(x[..i])
      {
        assert x[..i + 1][..i] == x[..i];
        h := HashStep(h, x[i]);
        i := i + 1;
      }
      assert x[..i] == x;
    }

    /** Entry by entry comparison of an entry's trace with `x`. */
    static method SameTrace(e: Entry, x: Trace) returns (same: bool)
      ensures same == (e.stack == x)
    {
      if |e.stack| != |x| {
        return false;
      }
      var i := 0;
      while i < |x|
        invariant 0 <= i <= |x| && e.stack[..i] == x[..i]
      {
        if e.stack[i] != x[i] {
          return false;
        }
        i := i + 1;
      }
      assert e.stack[..i] == e.stack && x[..i] == x;
      return true;
    }

    /** The entry of a bucket that holds `x`, or the bucket's length. */
    static method Search(q: seq<Entry>, x: Trace) returns (a: int)
      ensures 0 <= a <= |q|
      ensures a < |q| ==> q[a].stack == x
      ensures a == |q| ==> forall c :: 0 <= c < |q| ==> q[c].stack != x
    {
      a := 0;
      while a < |q|
        invariant 0 <= a <= |q|
        invariant forall c :: 0 <= c < a ==> q[c].stack != x
      {
        var same := SameTrace(q[a], x);
        if same {
          return;
        }
        a := a + 1;
      }
    }

    /** The first entry with the smallest count. */
    static method Smallest(q: seq<Entry>) returns (e: int)
      requires q != []
      ensures 0 <= e < |q|
      ensures forall c :: 0 <= c < |q| ==> q[e].count <= q[c].count
      ensures forall c :: 0 <= c < e ==> q[e].count < q[c].count
    {
      e := 0;
      var a := 1;
      while a < |q|
        invariant 0 <= e < a <= |q|
        invariant forall c :: 0 <= c < a ==> q[e].count <= q[c].count
        invariant forall c :: 0 <= c < e ==> q[e].count < q[c].count
      {
        if q[a].count < q[e].count {
          e := a;
        }
        a := a + 1;
      }
    }

    /** Counts one sample, cut to the largest depth; the entry with the smallest count makes room. */
    method Add(stack: Trace)
      requires Valid() && |stack| > 0
      modifies this, evict
      ensures Valid() && enabled == old(enabled) && period == old(period)
      ensures !enabled ==> unchanged(this) && unchanged(evict)
      ensures enabled ==> count == old(count) + 1 && old(out) <= out
      ensures enabled ==> added == old(added) + multiset{Truncated(stack)}
    {
      if !enabled {
        return;
      }
      hide Accounted, EncodeAll, HashStep, TableOk;
      var x := Truncated(stack);
      var h := Hash(x);
      count := count + 1;
      var a := PlaceFor(h % Buckets, x);
      Count(h % Buckets, a, x);
    }

    /** The entry of bucket `b` to count `x` in: the one that holds it, else the one with the
        smallest count, which is evicted if it was in use. */
    method PlaceFor(b: int, x: Trace) returns (a: int)
      requires Valid() && enabled && 0 <= b < Buckets && x != []
      modifies this`out, this`numEvicted, evict, this`records, this`table, this`evictions
      ensures Valid() && old(out) <= out && 0 <= a < |old(table)[b]| && |table| == Buckets && |table[b]| == Associativity
      ensures old(table)[b][a].stack == x ==> table == old(table)
      ensures old(table)[b][a].stack != x ==>
                && (forall c :: 0 <= c < Associativity ==>
                      old(table)[b][c].stack != x && old(table)[b][a].count <= old(table)[b][c].count)
                && table == old(table)[b := old(table)[b][a := Entry(0, [])]]
    {
      hide Accounted, EncodeAll;
      a := Search(table[b], x);
      if a == Associativity {
        a := Smallest(table[b]);
        assert EntryOk(table[b][a]);
        if table[b][a].count > 0 {
          evictions := evictions + 1;
          EvictEntry(b, a);
        } else {
          assert table[b][a := Entry(0, [])] == table[b];
          assert table[b := table[b]] == table;
        }
      }
    }

    /** Counts `x` in an entry that holds it or is unused. */
    method Count(b: int, a: int, x: Trace)
      requires Valid() && enabled && 0 <= b < |table| == Buckets && 0 <= a < |table[b]| == Associativity
      requires 1 <= |x| <= MaxStackDepth && (table[b][a].stack == x || table[b][a] == Entry(0, []))
      modifies this`table, this`added
      ensures Valid() && added == old(added) + multiset{x}
      ensures table == old(table)[b := old(table)[b][a := Entry(old(table)[b][a].count + 1, x)]]
    {
      hide Accounted, EncodeAll, TableOk;
      HitAccounted(table, records, added, b, a, x);
      table := table[b := table[b][a := Entry(table[b][a].count + 1, x)]];
      added := added + multiset{x};
    }
  }
}
