/**
 The other direction: a value with an empty list out of step is not read back. A reader that is
 ahead of the writer and still reads the same value stays ahead to the end of the value.
 */
module CodecExact {
  import opened Bytes
  import opened StandardCodec
  import opened CodecTheorems

  /** The encoding stands in the input and as much again follows, so that no read can fall off the end. */
  ghost predicate Roomy(b: Bytes, at: nat, chunk: Bytes, room: nat) {
    Holds(b, at, chunk) && |chunk| <= room && at + |chunk| + room <= |b|
  }

  /** The reader is at least where the writer is, and beyond it when `ahead`. */
  predicate Past(writer: nat, reader: nat, ahead: bool) {
    writer <= reader && (ahead ==> writer < reader)
  }

  // ---------------------------------------------------------------- sizes

  lemma SizeMonotone(n: nat, m: nat)
    requires n <= m < U32_LIMIT
    ensures |SizeBytes(n)| <= |SizeBytes(m)|
  {}

  lemma SizeNotShorter(b: Bytes, at: nat)
    requires at < |b|
    ensures ReadSize(b, at).0 < U32_LIMIT
    ensures ReadSize(b, at).1 >= at + |SizeBytes(ReadSize(b, at).0)|
  {}

  lemma SizeAtLeast(b: Bytes, at: nat, n: nat)
    requires at < |b| && n < U32_LIMIT && n <= ReadSize(b, at).0
    ensures ReadSize(b, at).1 >= at + |SizeBytes(n)|
  {
    SizeNotShorter(b, at);
    SizeMonotone(n, ReadSize(b, at).0);
  }

  // ---------------------------------------------------------------- no second header inside a padded header

  /** The bytes of a size followed by padding. */
  function Padded(n: nat, i: nat): byte
    requires n < U32_LIMIT
  {
    if i < |SizeBytes(n)| then SizeBytes(n)[i] else 0
  }

  /** The size that stands in padded bytes from index i on. */
  function PaddedSize(n: nat, i: nat): nat
    requires n < U32_LIMIT
  {
    var f := Padded(n, i);
    if f < 254 then f
    else if f == 254 then Padded(n, i + 1) as nat + 256 * (Padded(n, i + 2) as nat)
    else (Padded(n, i + 1) as nat + 256 * (Padded(n, i + 2) as nat))
         + 0x1_0000 * (Padded(n, i + 3) as nat + 256 * (Padded(n, i + 4) as nat))
  }

  lemma NoShiftedSize(n: nat, j: nat)
    requires 1 <= n < U32_LIMIT && 1 <= Padded(n, j) <= 14
    ensures PaddedSize(n, j + 1) != n
  {
    if n < 254 {
    } else if n <= 0xFFFF {
      assert SizeBytes(n) == [254, n % 256, n / 256];
      if j == 1 {
        assert n % 256 <= 14;
      } else {
        assert j == 2;
      }
    } else {
      assert SizeBytes(n) == [255, n % 0x1_0000 % 256, n % 0x1_0000 / 256, n / 0x1_0000 % 256, n / 0x1_0000 / 256];
      if j == 1 {
      } else if j == 2 {
      } else if j == 3 {
      } else {
        assert j == 4;
      }
    }
  }

  lemma PaddedBytes(b: Bytes, w: nat, n: nat, pad: nat, i: nat)
    requires n < U32_LIMIT && Holds(b, w, SizeBytes(n) + Zeros(pad)) && i < |SizeBytes(n)| + pad
    ensures b[w + i] == Padded(n, i)
  {
    assert (SizeBytes(n) + Zeros(pad))[i] == Padded(n, i);
  }

  /** What a size read inside padded bytes yields. */
  lemma PaddedRead(b: Bytes, w: nat, n: nat, pad: nat, i: nat)
    requires n < U32_LIMIT && Holds(b, w, SizeBytes(n) + Zeros(pad))
    requires ReadSize(b, w + i).1 <= w + |SizeBytes(n)| + pad && i < |SizeBytes(n)| + pad
    ensures ReadSize(b, w + i).0 == 0 || ReadSize(b, w + i).0 == PaddedSize(n, i)
  {
    var end := |SizeBytes(n)| + pad;
    PaddedBytes(b, w, n, pad, i);
    var f := Padded(n, i);
    if f == 254 && w + i + 3 <= |b| {
      PaddedBytes(b, w, n, pad, i + 1);
      PaddedBytes(b, w, n, pad, i + 2);
      assert b[w + i + 1..w + i + 3] == [Padded(n, i + 1), Padded(n, i + 2)];
    } else if f == 255 && w + i + 5 <= |b| {
      PaddedBytes(b, w, n, pad, i + 1);
      PaddedBytes(b, w, n, pad, i + 2);
      PaddedBytes(b, w, n, pad, i + 3);
      PaddedBytes(b, w, n, pad, i + 4);
      var raw := b[w + i + 1..w + i + 5];
      assert raw[..2] == [Padded(n, i + 1), Padded(n, i + 2)] && raw[2..] == [Padded(n, i + 3), Padded(n, i + 4)];
    }
  }

  /**
   A reader that is ahead inside the header of a typed list, before its padded end, does not see
   the same header again.
   */
  lemma NoHeaderInside(b: Bytes, w: nat, t: byte, n: nat, pad: nat, r: nat)
    requires 1 <= t <= 14 && 1 <= n < U32_LIMIT && Holds(b, w + 1, SizeBytes(n) + Zeros(pad))
    requires w < r && ReadSize(b, r + 1).1 <= w + 1 + |SizeBytes(n)| + pad && r + 1 < w + 1 + |SizeBytes(n)| + pad
    ensures b[r] != t || ReadSize(b, r + 1).0 != n
  {
    var j := r - (w + 1);
    PaddedBytes(b, w + 1, n, pad, j);
    PaddedRead(b, w + 1, n, pad, j + 1);
    if b[r] == t {
      NoShiftedSize(n, j);
    }
  }

  // ---------------------------------------------------------------- values without parts

  lemma FixedAhead(b: Bytes, w: nat, r: nat, v: Value, room: nat)
    requires WellSized(v) && (v.Null? || v.Boolean? || v.Int32? || v.Int64?)
    requires Roomy(b, w, Encoded(v, w), room) && w <= r && ReadValue(b, r).0 == v
    ensures Past(w + |Encoded(v, w)|, ReadValue(b, r).1, r > w)
  {}

  lemma Float64Ahead(b: Bytes, w: nat, r: nat, raw: Bytes, room: nat)
    requires |raw| == 8 && Roomy(b, w, Encoded(Float64(raw), w), room)
    requires w <= r && ReadValue(b, r).0 == Float64(raw)
    ensures Past(w + |Encoded(Float64(raw), w)|, ReadValue(b, r).1, r > w)
  {
    var c := AlignUp(w + 1, 8);
    TypeRead(b, w, Float64(raw));
    HoldsSplit(b, w + 1, Zeros(c - (w + 1)), raw);
    forall i | w < i < c ensures b[i] == 0 {
      assert b[w + 1 + (i - (w + 1))] == Zeros(c - (w + 1))[i - (w + 1)];
    }
    AlignMonotone(w + 1, r + 1, 8);
  }

  lemma TextAhead(b: Bytes, w: nat, r: nat, raw: Bytes, room: nat)
    requires |raw| < U32_LIMIT && Roomy(b, w, Encoded(Text(raw), w), room)
    requires w <= r && ReadValue(b, r).0 == Text(raw)
    ensures Past(w + |Encoded(Text(raw), w)|, ReadValue(b, r).1, r > w)
  {
    if r + 1 < |b| {
      SizeAtLeast(b, r + 1, |raw|);
    }
  }

  // ---------------------------------------------------------------- typed lists

  lemma TypedParts(b: Bytes, r: nat, kind: Kind, raw: Bytes)
    requires r < |b| && ReadValue(b, r).0 == Typed(kind, raw)
    ensures b[r] == KindType(kind)
    ensures ReadValue(b, r) == ReadTyped(b, r + 1, kind)
  {}

  /** Where a typed list read at r gets its elements from, and where it ends. */
  lemma TypedReads(b: Bytes, r: nat, kind: Kind, raw: Bytes) returns (s: nat)
    requires r + 1 < |b| && WellSized(Typed(kind, raw)) && ReadValue(b, r).0 == Typed(kind, raw)
    ensures b[r] == KindType(kind) && ReadSize(b, r + 1) == (Count(kind, raw), s)
    ensures s >= r + 1 + |SizeBytes(Count(kind, raw))|
    ensures ReadValue(b, r).1 == ReadBytes(b, AlignUp(s, Width(kind)), |raw|).1
  {
    TypedParts(b, r, kind, raw);
    var count := ReadSize(b, r + 1).0;
    s := ReadSize(b, r + 1).1;
    SizeAtLeast(b, r + 1, count);
  }

  lemma EmptyTypedAhead(b: Bytes, w: nat, r: nat, kind: Kind, room: nat)
    requires Roomy(b, w, Encoded(Typed(kind, []), w), room)
    requires w <= r && r + 1 < |b| && ReadValue(b, r).0 == Typed(kind, [])
    ensures Past(w + |Encoded(Typed(kind, []), w)|, ReadValue(b, r).1, r > w || !InStep(Typed(kind, []), w))
  {
    var s := TypedReads(b, r, kind, []);
    AlignByRest(w + 2, Width(kind));
    if r == w {
      TypeRead(b, w, Typed(kind, []));
      HoldsSplit(b, w + 1, SizeBytes(0), []);
      SizeRead(b, w + 1, 0);
    }
  }

  /** Reading raw bytes from where they stand, or from further on. */
  lemma RawPast(b: Bytes, c: nat, from: nat, length: nat, room: nat)
    requires c <= from && length < room && c + length + room <= |b|
    ensures Past(c + length, ReadBytes(b, from, length).1, from > c)
  {}

  lemma FullTypedLayout(b: Bytes, w: nat, kind: Kind, raw: Bytes, size: Bytes, header: nat)
    requires WellSized(Typed(kind, raw)) && raw != [] && Holds(b, w, Encoded(Typed(kind, raw), w))
    requires size == SizeBytes(Count(kind, raw)) && header == w + 1 + |size|
    ensures w + |Encoded(Typed(kind, raw), w)| == header + |Padding(kind, header)| + |raw|
    ensures Holds(b, w + 1, size + Padding(kind, header)) && Count(kind, raw) >= 1
  {
    TypeRead(b, w, Typed(kind, raw));
    TypedBodyLayout(kind, raw, w + 1, size, header);
    HeaderOfThree(b, w + 1, size, Padding(kind, header), raw);
  }

  lemma HeaderOfThree(b: Bytes, at: nat, size: Bytes, padding: Bytes, raw: Bytes)
    requires Holds(b, at, size + (padding + raw))
    ensures Holds(b, at, size + padding)
  {
    HoldsSplit(b, at, size, padding + raw);
    PaddedHeader(b, at, size, padding, raw);
  }

  /** The elements are read from behind the writer's padding, further behind when the reader started ahead. */
  lemma ElementsFrom(b: Bytes, w: nat, r: nat, kind: Kind, n: nat, header: nat, s: nat)
    requires 1 <= n < U32_LIMIT && header == w + 1 + |SizeBytes(n)| && s >= r + 1 + |SizeBytes(n)| && w <= r && r + 1 < |b|
    requires b[r] == KindType(kind) && ReadSize(b, r + 1) == (n, s)
    requires Holds(b, w + 1, SizeBytes(n) + Padding(kind, header))
    ensures AlignUp(header, Width(kind)) <= AlignUp(s, Width(kind))
    ensures r > w ==> AlignUp(header, Width(kind)) < AlignUp(s, Width(kind))
  {
    var c := AlignUp(header, Width(kind));
    AlignMonotone(header, s, Width(kind));
    if w < r && s <= c {
      NoHeaderInside(b, w, KindType(kind), n, c - header, r);
    }
  }

  lemma FullTypedAhead(b: Bytes, w: nat, r: nat, kind: Kind, raw: Bytes, room: nat)
    requires WellSized(Typed(kind, raw)) && raw != [] && Roomy(b, w, Encoded(Typed(kind, raw), w), room)
    requires w <= r && r + 1 < |b| && ReadValue(b, r).0 == Typed(kind, raw)
    ensures Past(w + |Encoded(Typed(kind, raw), w)|, ReadValue(b, r).1, r > w)
  {
    var n := Count(kind, raw);
    var header := w + 1 + |SizeBytes(n)|;
    FullTypedLayout(b, w, kind, raw, SizeBytes(n), header);
    var s := TypedReads(b, r, kind, raw);
    ElementsFrom(b, w, r, kind, n, header, s);
    RawPast(b, AlignUp(header, Width(kind)), AlignUp(s, Width(kind)), |raw|, room);
  }

  lemma PaddedHeader(b: Bytes, at: nat, size: Bytes, padding: Bytes, raw: Bytes)
    requires Holds(b, at, size) && Holds(b, at + |size|, padding + raw)
    ensures Holds(b, at, size + padding)
  {
    HoldsSplit(b, at + |size|, padding, raw);
    forall i | 0 <= i < |size + padding| ensures b[at + i] == (size + padding)[i] {
      if i >= |size| {
        assert b[at + |size| + (i - |size|)] == padding[i - |size|];
      }
    }
  }

  lemma TypedAhead(b: Bytes, w: nat, r: nat, kind: Kind, raw: Bytes, room: nat)
    requires WellSized(Typed(kind, raw)) && Roomy(b, w, Encoded(Typed(kind, raw), w), room)
    requires w <= r && ReadValue(b, r).0 == Typed(kind, raw)
    ensures Past(w + |Encoded(Typed(kind, raw), w)|, ReadValue(b, r).1, r > w || !InStep(Typed(kind, raw), w))
  {
    if r + 1 < |b| {
      if raw == [] {
        EmptyTypedAhead(b, w, r, kind, room);
      } else {
        FullTypedAhead(b, w, r, kind, raw, room);
      }
    }
  }

  // ---------------------------------------------------------------- lists and maps

  lemma RoomyParts(b: Bytes, at: nat, x: Bytes, y: Bytes, room: nat)
    requires Roomy(b, at, x + y, room)
    ensures Roomy(b, at, x, room) && Roomy(b, at + |x|, y, room)
  {
    HoldsSplit(b, at, x, y);
  }

  lemma RoomyBody(b: Bytes, at: nat, v: Value, room: nat)
    requires WellSized(v) && Roomy(b, at, Encoded(v, at), room)
    ensures Roomy(b, at + 1, Body(v, at + 1), room)
  {
    TypeRead(b, at, v);
  }

  lemma {:induction false} PairsGrow(b: Bytes, at: nat, count: nat, sofar: seq<Pair>)
    ensures sofar <= ReadPairs(b, at, count, sofar).0 && |ReadPairs(b, at, count, sofar).0| <= |sofar| + count
    decreases count
  {
    if count > 0 {
      var (pair, next) := ReadPair(b, at);
      PairsGrow(b, next, count - 1, Emplaced(sofar, pair));
    }
  }

  /** Where a list read at r gets its items from. */
  lemma ListReads(b: Bytes, r: nat, items: seq<Value>) returns (s: nat)
    requires r + 1 < |b| && |items| < U32_LIMIT && ReadValue(b, r).0 == List(items)
    ensures ReadItems(b, s, |items|) == (items, ReadValue(b, r).1)
    ensures s >= r + 1 + |SizeBytes(|items|)|
  {
    var (count, next) := ReadSize(b, r + 1);
    s := next;
    assert ReadValue(b, r) == (List(ReadItems(b, s, count).0), ReadItems(b, s, count).1);
    SizeAtLeast(b, r + 1, |items|);
  }

  lemma ListStart(b: Bytes, w: nat, items: seq<Value>, room: nat)
    requires WellSized(List(items)) && Roomy(b, w, Encoded(List(items), w), room)
    ensures var start := w + 1 + |SizeBytes(|items|)|; Roomy(b, start, EncodedAll(items, start), room)
    ensures AllSized(items)
  {
    RoomyBody(b, w, List(items), room);
    RoomyParts(b, w + 1, SizeBytes(|items|), EncodedAll(items, w + 1 + |SizeBytes(|items|)|), room);
  }

  lemma ListLayout(items: seq<Value>, w: nat, start: nat)
    requires start == w + 1 + |SizeBytes(|items|)|
    ensures w + |Encoded(List(items), w)| == start + |EncodedAll(items, start)|
    ensures InStep(List(items), w) == AllInStep(items, start)
  {}

  /** The items of a list carry its header's distance on to the end. */
  lemma ListEnd(items: seq<Value>, w: nat, r: nat, start: nat, s: nat, end: nat)
    requires start == w + 1 + |SizeBytes(|items|)| && s >= r + 1 + |SizeBytes(|items|)| && w <= r
    requires Past(start + |EncodedAll(items, start)|, end, s > start || !AllInStep(items, start))
    ensures Past(w + |Encoded(List(items), w)|, end, r > w || !InStep(List(items), w))
  {
    ListLayout(items, w, start);
  }

  lemma {:induction false} ListAhead(b: Bytes, w: nat, r: nat, items: seq<Value>, room: nat)
    requires WellSized(List(items)) && Roomy(b, w, Encoded(List(items), w), room)
    requires w <= r && r + 1 < |b| && ReadValue(b, r).0 == List(items)
    ensures Past(w + |Encoded(List(items), w)|, ReadValue(b, r).1, r > w || !InStep(List(items), w))
    decreases List(items), 0
  {
    var start := w + 1 + |SizeBytes(|items|)|;
    ListStart(b, w, items, room);
    var s := ListReads(b, r, items);
    ItemsAhead(b, start, s, items, room);
    ListEnd(items, w, r, start, s, ReadValue(b, r).1);
  }

  /** Where a map read at r gets its entries from. */
  lemma MapReads(b: Bytes, r: nat, entries: seq<Pair>) returns (s: nat, count: nat)
    requires r + 1 < |b| && |entries| < U32_LIMIT && ReadValue(b, r).0 == Map(entries)
    ensures ReadPairs(b, s, count, []).0 == [] + entries && ReadPairs(b, s, count, []).1 == ReadValue(b, r).1
    ensures s >= r + 1 + |SizeBytes(|entries|)|
  {
    assert [] + entries == entries;
    count, s := ReadSize(b, r + 1).0, ReadSize(b, r + 1).1;
    assert ReadValue(b, r) == (Map(ReadPairs(b, s, count, []).0), ReadPairs(b, s, count, []).1);
    PairsGrow(b, s, count, []);
    SizeAtLeast(b, r + 1, |entries|);
  }

  lemma MapStart(b: Bytes, w: nat, entries: seq<Pair>, room: nat)
    requires WellSized(Map(entries)) && Roomy(b, w, Encoded(Map(entries), w), room)
    ensures var start := w + 1 + |SizeBytes(|entries|)|; Roomy(b, start, EncodedPairs(entries, start), room)
    ensures PairsSized(entries)
  {
    RoomyBody(b, w, Map(entries), room);
    RoomyParts(b, w + 1, SizeBytes(|entries|), EncodedPairs(entries, w + 1 + |SizeBytes(|entries|)|), room);
  }

  lemma MapLayout(entries: seq<Pair>, w: nat, start: nat)
    requires start == w + 1 + |SizeBytes(|entries|)|
    ensures w + |Encoded(Map(entries), w)| == start + |EncodedPairs(entries, start)|
    ensures InStep(Map(entries), w) == PairsInStep(entries, start)
  {}

  lemma MapEnd(entries: seq<Pair>, w: nat, r: nat, start: nat, s: nat, end: nat)
    requires start == w + 1 + |SizeBytes(|entries|)| && s >= r + 1 + |SizeBytes(|entries|)| && w <= r
    requires Past(start + |EncodedPairs(entries, start)|, end, s > start || !PairsInStep(entries, start))
    ensures Past(w + |Encoded(Map(entries), w)|, end, r > w || !InStep(Map(entries), w))
  {
    MapLayout(entries, w, start);
  }

  lemma {:induction false} MapAhead(b: Bytes, w: nat, r: nat, entries: seq<Pair>, room: nat)
    requires WellSized(Map(entries)) && Roomy(b, w, Encoded(Map(entries), w), room)
    requires w <= r && r + 1 < |b| && ReadValue(b, r).0 == Map(entries)
    ensures Past(w + |Encoded(Map(entries), w)|, ReadValue(b, r).1, r > w || !InStep(Map(entries), w))
    decreases Map(entries), 0
  {
    var start := w + 1 + |SizeBytes(|entries|)|;
    MapStart(b, w, entries, room);
    var s, count := MapReads(b, r, entries);
    PairsAhead(b, start, s, entries, count, [], room);
    MapEnd(entries, w, r, start, s, ReadValue(b, r).1);
  }

  /**
   A reader at or beyond the start of an encoded value that reads this very value ends at or
   beyond its end - strictly beyond when it started beyond, or when the value is out of step.
   */
  lemma {:induction false} ValueAhead(b: Bytes, w: nat, r: nat, v: Value, room: nat)
    requires WellSized(v) && Roomy(b, w, Encoded(v, w), room) && w <= r && ReadValue(b, r).0 == v
    ensures Past(w + |Encoded(v, w)|, ReadValue(b, r).1, r > w || !InStep(v, w))
    decreases v, 1
  {
    if r > w + |Encoded(v, w)| {
    } else {
      match v {
        case Float64(raw) => Float64Ahead(b, w, r, raw, room);
        case Text(raw) => TextAhead(b, w, r, raw, room);
        case Typed(kind, raw) => TypedAhead(b, w, r, kind, raw, room);
        case List(items) => ListAhead(b, w, r, items, room);
        case Map(entries) => MapAhead(b, w, r, entries, room);
        case _ => FixedAhead(b, w, r, v, room);
      }
    }
  }

  lemma FirstStart(b: Bytes, w: nat, items: seq<Value>, room: nat, middle: nat)
    requires items != [] && Roomy(b, w, EncodedAll(items, w), room) && middle == w + |Encoded(items[0], w)|
    ensures Roomy(b, w, Encoded(items[0], w), room) && Roomy(b, middle, EncodedAll(items[1..], middle), room)
    ensures w + |EncodedAll(items, w)| == middle + |EncodedAll(items[1..], middle)|
    ensures AllInStep(items, w) == (InStep(items[0], w) && AllInStep(items[1..], middle))
  {
    RoomyParts(b, w, Encoded(items[0], w), EncodedAll(items[1..], middle), room);
  }

  lemma {:induction false} ItemsAhead(b: Bytes, w: nat, r: nat, items: seq<Value>, room: nat)
    requires AllSized(items) && Roomy(b, w, EncodedAll(items, w), room)
    requires w <= r && ReadItems(b, r, |items|).0 == items
    ensures Past(w + |EncodedAll(items, w)|, ReadItems(b, r, |items|).1, r > w || !AllInStep(items, w))
    decreases items
  {
    if items != [] {
      var next, middle := ReadValue(b, r).1, w + |Encoded(items[0], w)|;
      FirstStart(b, w, items, room, middle);
      FirstItem(b, r, items);
      assert Past(middle, next, r > w || !InStep(items[0], w)) by {
        ValueAhead(b, w, r, items[0], room);
      }
      ItemsAhead(b, middle, next, items[1..], room);
    }
  }

  lemma FirstItem(b: Bytes, r: nat, items: seq<Value>)
    requires items != [] && ReadItems(b, r, |items|).0 == items
    ensures ReadValue(b, r).0 == items[0]
    ensures ReadItems(b, ReadValue(b, r).1, |items[1..]|) == (items[1..], ReadItems(b, r, |items|).1)
  {
    var (first, next) := ReadValue(b, r);
    assert ReadItems(b, r, |items|) == ([first] + ReadItems(b, next, |items| - 1).0, ReadItems(b, next, |items| - 1).1);
    assert ReadItems(b, next, |items| - 1).0 == items[1..];
  }

  lemma PairStart(b: Bytes, w: nat, pair: Pair, room: nat, middle: nat)
    requires Roomy(b, w, EncodedPair(pair, w), room) && middle == w + |Encoded(pair.key, w)|
    ensures Roomy(b, w, Encoded(pair.key, w), room) && Roomy(b, middle, Encoded(pair.value, middle), room)
    ensures w + |EncodedPair(pair, w)| == middle + |Encoded(pair.value, middle)|
    ensures PairInStep(pair, w) == (InStep(pair.key, w) && InStep(pair.value, middle))
  {
    RoomyParts(b, w, Encoded(pair.key, w), Encoded(pair.value, middle), room);
  }

  lemma PairRead(b: Bytes, r: nat, pair: Pair, next: nat)
    requires ReadPair(b, r) == (pair, next)
    ensures ReadValue(b, r).0 == pair.key && ReadValue(b, ReadValue(b, r).1) == (pair.value, next)
  {}

  lemma {:induction false} PairAhead(b: Bytes, w: nat, r: nat, pair: Pair, next: nat, room: nat)
    requires WellSized(pair.key) && WellSized(pair.value) && Roomy(b, w, EncodedPair(pair, w), room)
    requires w <= r && ReadPair(b, r) == (pair, next)
    ensures Past(w + |EncodedPair(pair, w)|, next, r > w || !PairInStep(pair, w))
    decreases pair
  {
    var middle := w + |Encoded(pair.key, w)|;
    PairStart(b, w, pair, room, middle);
    PairRead(b, r, pair, next);
    ValueAhead(b, w, r, pair.key, room);
    ValueAhead(b, middle, ReadValue(b, r).1, pair.value, room);
  }

  lemma {:induction false} PairsAhead(
    b: Bytes, w: nat, r: nat, entries: seq<Pair>, count: nat, sofar: seq<Pair>, room: nat)
    requires PairsSized(entries) && Roomy(b, w, EncodedPairs(entries, w), room)
    requires w <= r && ReadPairs(b, r, count, sofar).0 == sofar + entries
    ensures Past(w + |EncodedPairs(entries, w)|, ReadPairs(b, r, count, sofar).1, r > w || !PairsInStep(entries, w))
    decreases entries, count
  {
    if count > 0 {
      var (pair, next) := ReadPair(b, r);
      PairsRead(b, r, count, sofar);
      if HasKey(sofar, pair.key) {
        PairsAhead(b, w, next, entries, count - 1, sofar, room);
      } else {
        FirstEntry(b, next, count - 1, sofar, pair, entries);
        NextPairsAhead(b, w, r, entries, next, count - 1, sofar + [pair], room);
      }
    }
  }

  lemma FirstPairStart(b: Bytes, w: nat, entries: seq<Pair>, room: nat, middle: nat)
    requires entries != [] && Roomy(b, w, EncodedPairs(entries, w), room) && middle == w + |EncodedPair(entries[0], w)|
    ensures Roomy(b, w, EncodedPair(entries[0], w), room) && Roomy(b, middle, EncodedPairs(entries[1..], middle), room)
    ensures w + |EncodedPairs(entries, w)| == middle + |EncodedPairs(entries[1..], middle)|
    ensures PairsInStep(entries, w) == (PairInStep(entries[0], w) && PairsInStep(entries[1..], middle))
  {
    RoomyParts(b, w, EncodedPair(entries[0], w), EncodedPairs(entries[1..], middle), room);
  }

  lemma {:induction false} NextPairsAhead(
    b: Bytes, w: nat, r: nat, entries: seq<Pair>, next: nat, count: nat, sofar: seq<Pair>, room: nat)
    requires PairsSized(entries) && entries != [] && Roomy(b, w, EncodedPairs(entries, w), room)
    requires w <= r && ReadPair(b, r) == (entries[0], next)
    requires ReadPairs(b, next, count, sofar).0 == sofar + entries[1..]
    ensures Past(w + |EncodedPairs(entries, w)|, ReadPairs(b, next, count, sofar).1, r > w || !PairsInStep(entries, w))
    decreases entries, 0
  {
    var middle := w + |EncodedPair(entries[0], w)|;
    FirstPairStart(b, w, entries, room, middle);
    assert Past(middle, next, r > w || !PairInStep(entries[0], w)) by {
      PairAhead(b, w, r, entries[0], next, room);
    }
    PairsAhead(b, middle, next, entries[1..], count, sofar, room);
  }

  lemma FirstEntry(b: Bytes, at: nat, count: nat, sofar: seq<Pair>, pair: Pair, entries: seq<Pair>)
    requires ReadPairs(b, at, count, sofar + [pair]).0 == sofar + entries
    ensures entries != [] && entries[0] == pair && sofar + [pair] + entries[1..] == sofar + entries
  {
    PairsGrow(b, at, count, sofar + [pair]);
    assert (sofar + [pair])[|sofar|] == (sofar + entries)[|sofar|];
  }

  // ---------------------------------------------------------------- what can be read at all

  lemma SizeIsSmall(b: Bytes, at: nat)
    ensures ReadSize(b, at).0 < U32_LIMIT
  {}

  lemma TypedIsSized(b: Bytes, at: nat, kind: Kind)
    ensures WellSized(ReadTyped(b, at, kind).0)
  {
    SizeIsSmall(b, at);
    CountOfSize(kind, ReadSize(b, at).0, ReadTyped(b, at, kind).0.raw);
  }

  lemma CountOfSize(kind: Kind, n: nat, raw: Bytes)
    requires |raw| == SizeOf(kind, n)
    ensures Count(kind, raw) == n && Whole(kind, raw)
  {}

  /** Whatever the bytes are, no size of 2^32, no custom value and no repeated key is ever read. */
  lemma {:induction false} ReadIsSized(b: Bytes, at: nat)
    ensures WellSized(ReadValue(b, at).0)
    decreases Rest(b, at), 0, 0
  {
    if at < |b| {
      var t := b[at];
      SizeIsSmall(b, at + 1);
      if t == 8 || t == 9 || t == 10 || t == 11 || t == 14 {
        TypedIsSized(b, at + 1, KindOf(t));
      } else if t == 12 {
        ItemsAreSized(b, ReadSize(b, at + 1).1, ReadSize(b, at + 1).0);
      } else if t == 13 {
        PairsAreSized(b, ReadSize(b, at + 1).1, ReadSize(b, at + 1).0, []);
        PairsGrow(b, ReadSize(b, at + 1).1, ReadSize(b, at + 1).0, []);
      }
    }
  }

  lemma {:induction false} ItemsAreSized(b: Bytes, at: nat, count: nat)
    ensures AllSized(ReadItems(b, at, count).0)
    decreases Rest(b, at), 1, count
  {
    if count > 0 {
      ReadIsSized(b, at);
      ItemsAreSized(b, ReadValue(b, at).1, count - 1);
      var (first, next) := ReadValue(b, at);
      assert ReadItems(b, at, count).0 == [first] + ReadItems(b, next, count - 1).0;
    }
  }

  lemma {:induction false} PairsSizedSnoc(entries: seq<Pair>, pair: Pair)
    requires PairsSized(entries) && PairSized(pair)
    ensures PairsSized(entries + [pair])
  {
    if entries != [] {
      PairsSizedSnoc(entries[1..], pair);
      assert (entries + [pair])[1..] == entries[1..] + [pair];
    }
  }

  lemma KeysStayDistinct(sofar: seq<Pair>, pair: Pair)
    requires KeysDistinct(sofar)
    ensures KeysDistinct(Emplaced(sofar, pair))
  {
    if !HasKey(sofar, pair.key) {
      forall i | 0 <= i < |sofar| ensures sofar[i].key != pair.key {
        assert sofar[i] in sofar;
      }
    }
  }

  lemma {:induction false} PairsAreSized(b: Bytes, at: nat, count: nat, sofar: seq<Pair>)
    requires PairsSized(sofar) && KeysDistinct(sofar)
    ensures PairsSized(ReadPairs(b, at, count, sofar).0) && KeysDistinct(ReadPairs(b, at, count, sofar).0)
    decreases Rest(b, at), 2, count
  {
    if count > 0 {
      var (pair, next) := ReadPair(b, at);
      ReadIsSized(b, at);
      ReadIsSized(b, ReadValue(b, at).1);
      PairsSizedSnoc(sofar, pair);
      KeysStayDistinct(sofar, pair);
      PairsAreSized(b, next, count - 1, Emplaced(sofar, pair));
    }
  }

  // ---------------------------------------------------------------- exactly when

  /** Whatever stands before and behind it, the value is read back and the reader ends where the writer did. */
  ghost predicate RoundTrips(v: Value, at: nat) {
    forall before: Bytes, behind: Bytes :: |before| == at ==>
      ReadValue(before + Encoded(v, at) + behind, at) == (v, at + |Encoded(v, at)|)
  }

  /**
   Any value written at a position is read back with its position exactly when all its sizes are below 2^32, nothing
   in it is of a custom type, and every empty list of multi-byte elements in it ends its size at an aligned position.
   */
  lemma RoundTripExact(v: Value, at: nat)
    ensures RoundTrips(v, at) <==> WellSized(v) && InStep(v, at)
  {
    if WellSized(v) && InStep(v, at) {
      InStepRoundTrips(v, at);
    }
    if RoundTrips(v, at) {
      OnlySized(v, at);
      OnlyInStep(v, at);
    }
  }

  lemma InStepRoundTrips(v: Value, at: nat)
    requires WellSized(v) && InStep(v, at)
    ensures RoundTrips(v, at)
  {
    forall before: Bytes, behind: Bytes | |before| == at
      ensures ReadValue(before + Encoded(v, at) + behind, at) == (v, at + |Encoded(v, at)|)
    {
      ReadsBackInContext(before, v, behind);
    }
  }

  lemma OnlySized(v: Value, at: nat)
    requires RoundTrips(v, at)
    ensures WellSized(v)
  {
    var b := Zeros(at) + Encoded(v, at) + [];
    assert ReadValue(b, at) == (v, at + |Encoded(v, at)|);
    ReadIsSized(b, at);
  }

  lemma ReadsBackInContext(before: Bytes, v: Value, behind: Bytes)
    requires WellSized(v) && InStep(v, |before|)
    ensures ReadValue(before + Encoded(v, |before|) + behind, |before|) == (v, |before| + |Encoded(v, |before|)|)
  {
    InContext(before, Encoded(v, |before|), behind);
    ReadsBack(before + Encoded(v, |before|) + behind, |before|, v);
  }

  lemma OnlyInStep(v: Value, at: nat)
    requires WellSized(v) && RoundTrips(v, at)
    ensures InStep(v, at)
  {
    var chunk := Encoded(v, at);
    var before, behind := Zeros(at), Zeros(|chunk|);
    var b := before + Encoded(v, at) + behind;
    assert ReadValue(b, at) == (v, at + |chunk|);
    InContext(before, chunk, behind);
    assert Roomy(b, at, chunk, |chunk|);
    ValueAhead(b, at, at, v, |chunk|);
  }

  lemma InContext(before: Bytes, chunk: Bytes, behind: Bytes)
    ensures Holds(before + chunk + behind, |before|, chunk)
  {
    var b := before + chunk + behind;
    forall i | 0 <= i < |chunk| ensures b[|before| + i] == chunk[i] {
      assert (before + chunk)[|before| + i] == chunk[i];
    }
  }

  /** The shortest value that is not read back: at the start of a message, an empty Int32List. */
  lemma EmptyInt32ListIsOutOfStep()
    ensures WellSized(Typed(Int32s, [])) && Encoded(Typed(Int32s, []), 0) == [9, 0]
    ensures ReadValue([9, 0], 0) == (Typed(Int32s, []), 4)
    ensures !RoundTrips(Typed(Int32s, []), 0)
  {
    RoundTripExact(Typed(Int32s, []), 0);
    assert !InStep(Typed(Int32s, []), 0);
  }
}
