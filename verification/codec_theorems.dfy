/** When reading back what was written gives the value back, for every value and position. */
module CodecTheorems {
  import opened Bytes
  import opened StandardCodec

  // ---------------------------------------------------------------- bytes in place

  /** The chunk stands in the input at the position. */
  ghost predicate Holds(b: Bytes, at: nat, chunk: Bytes) {
    at + |chunk| <= |b| && forall i :: 0 <= i < |chunk| ==> b[at + i] == chunk[i]
  }

  lemma HoldsSplit(b: Bytes, at: nat, x: Bytes, y: Bytes)
    requires Holds(b, at, x + y)
    ensures Holds(b, at, x) && Holds(b, at + |x|, y)
  {
    forall i | 0 <= i < |y| ensures b[at + |x| + i] == y[i] {
      assert (x + y)[|x| + i] == y[i];
    }
    forall i | 0 <= i < |x| ensures b[at + i] == x[i] {
      assert (x + y)[i] == x[i];
    }
  }

  lemma RawRead(b: Bytes, at: nat, raw: Bytes)
    requires Holds(b, at, raw)
    ensures ReadBytes(b, at, |raw|) == (raw, at + |raw|)
  {
    assert b[at..at + |raw|] == raw;
  }

  lemma Little32RoundTrip(n: nat)
    requires n < U32_LIMIT
    ensures FromLittle32(Little32(n)) == n
  {
    assert Little32(n)[..2] == Little16(n % 0x1_0000) && Little32(n)[2..] == Little16(n / 0x1_0000);
  }

  lemma SizeRead(b: Bytes, at: nat, n: nat)
    requires n < U32_LIMIT && Holds(b, at, SizeBytes(n))
    ensures ReadSize(b, at) == (n, at + |SizeBytes(n)|)
  {
    assert b[at] == SizeBytes(n)[0];
    if 254 <= n <= 0xFFFF {
      HoldsSplit(b, at, [254], Little16(n));
      RawRead(b, at + 1, Little16(n));
    } else if n > 0xFFFF {
      HoldsSplit(b, at, [255], Little32(n));
      RawRead(b, at + 1, Little32(n));
      Little32RoundTrip(n);
    }
  }

  // ---------------------------------------------------------------- alignment

  predicate IsWidth(w: nat) {
    w == 1 || w == 4 || w == 8
  }

  lemma AlignMonotone(x: nat, y: nat, w: nat)
    requires IsWidth(w) && x <= y
    ensures AlignUp(x, w) <= AlignUp(y, w)
    ensures AlignUp(x, w) == AlignUp(y, w) || AlignUp(x, w) + w <= AlignUp(y, w)
  {
    if w == 8 {
      assert (x + 7) / 8 <= (y + 7) / 8;
    } else if w == 4 {
      assert (x + 3) / 4 <= (y + 3) / 4;
    }
  }

  // ---------------------------------------------------------------- empty typed lists

  /**
   Every empty list of 4- or 8-byte elements ends its size at a multiple of the element width: there
   the reader aligns, and the writer does not.
   */
  predicate InStep(v: Value, at: nat)
    decreases v
  {
    match v
    case Typed(kind, raw) => raw == [] ==> Multiple(at + 2, Width(kind))
    case List(items) => AllInStep(items, at + 1 + |SizeBytes(|items|)|)
    case Map(entries) => PairsInStep(entries, at + 1 + |SizeBytes(|entries|)|)
    case _ => true
  }

  predicate AllInStep(items: seq<Value>, at: nat)
    decreases items
  {
    items == [] || (InStep(items[0], at) && AllInStep(items[1..], at + |Encoded(items[0], at)|))
  }

  predicate PairInStep(pair: Pair, at: nat)
    decreases pair
  {
    InStep(pair.key, at) && InStep(pair.value, at + |Encoded(pair.key, at)|)
  }

  predicate PairsInStep(entries: seq<Pair>, at: nat)
    decreases entries
  {
    entries == [] || (PairInStep(entries[0], at) && PairsInStep(entries[1..], at + |EncodedPair(entries[0], at)|))
  }

  // ---------------------------------------------------------------- reading back

  lemma TypeRead(b: Bytes, at: nat, v: Value)
    requires WellSized(v) && Holds(b, at, Encoded(v, at))
    ensures at < |b| && b[at] == TypeOf(v) && Holds(b, at + 1, Body(v, at + 1))
  {
    HoldsSplit(b, at, [TypeOf(v)], Body(v, at + 1));
    assert b[at + 0] == [TypeOf(v)][0];
  }

  /** The encoding of a value in step stands in the input. */
  ghost predicate Stands(b: Bytes, at: nat, v: Value) {
    WellSized(v) && InStep(v, at) && Holds(b, at, Encoded(v, at))
  }

  /** Reading there gives the value back and ends where the writer ended. */
  ghost predicate Back(b: Bytes, at: nat, v: Value) {
    ReadValue(b, at) == (v, at + |Encoded(v, at)|)
  }

  lemma Float64Back(b: Bytes, at: nat, raw: Bytes)
    requires Stands(b, at, Float64(raw))
    ensures Back(b, at, Float64(raw))
  {
    TypeRead(b, at, Float64(raw));
    var start := AlignUp(at + 1, 8);
    HoldsSplit(b, at + 1, Zeros(start - (at + 1)), raw);
    RawRead(b, start, raw);
  }

  lemma TextBack(b: Bytes, at: nat, raw: Bytes)
    requires Stands(b, at, Text(raw))
    ensures Back(b, at, Text(raw))
  {
    TypeRead(b, at, Text(raw));
    HoldsSplit(b, at + 1, SizeBytes(|raw|), raw);
    SizeRead(b, at + 1, |raw|);
    RawRead(b, at + 1 + |SizeBytes(|raw|)|, raw);
  }

  lemma KindRoundTrip(kind: Kind)
    ensures KindOf(KindType(kind)) == kind
  {}

  lemma TypedBodyBack(b: Bytes, at: nat, kind: Kind, raw: Bytes)
    requires Holds(b, at, TypedBody(kind, raw, at))
    requires raw == [] ==> Multiple(at, Width(kind))
    ensures ReadBytes(b, AlignUp(at, Width(kind)), |raw|) == (raw, at + |TypedBody(kind, raw, at)|)
  {
    var start := AlignUp(at, Width(kind));
    AlignByRest(at, Width(kind));
    if raw == [] {
      assert Holds(b, at, raw);
      RawRead(b, at, raw);
    } else {
      HoldsSplit(b, at, Zeros(start - at), raw);
      RawRead(b, start, raw);
    }
  }

  lemma ReadTypedParts(b: Bytes, at: nat, kind: Kind, raw: Bytes, n: nat, next: nat, end: nat)
    requires ReadSize(b, at) == (n, next) && SizeOf(kind, n) == |raw|
    requires ReadBytes(b, AlignUp(next, Width(kind)), |raw|) == (raw, end)
    ensures ReadTyped(b, at, kind) == (Typed(kind, raw), end)
  {}

  /** The count of a typed list and its elements, read behind the type byte. */
  lemma TypedPartsBack(b: Bytes, at: nat, kind: Kind, raw: Bytes, n: nat, start: nat)
    requires n < U32_LIMIT && SizeOf(kind, n) == |raw| && start == at + |SizeBytes(n)|
    requires Holds(b, at, SizeBytes(n) + TypedBody(kind, raw, start))
    requires raw == [] ==> Multiple(start, Width(kind))
    ensures ReadTyped(b, at, kind) == (Typed(kind, raw), start + |TypedBody(kind, raw, start)|)
  {
    HoldsSplit(b, at, SizeBytes(n), TypedBody(kind, raw, start));
    SizeRead(b, at, n);
    TypedBodyBack(b, start, kind, raw);
    ReadTypedParts(b, at, kind, raw, n, start, start + |TypedBody(kind, raw, start)|);
  }

  lemma TypedBack(b: Bytes, at: nat, kind: Kind, raw: Bytes)
    requires Stands(b, at, Typed(kind, raw))
    ensures Back(b, at, Typed(kind, raw))
  {
    var n := Count(kind, raw);
    var start := at + 1 + |SizeBytes(n)|;
    TypedStands(b, at, kind, raw, n, start);
    TypedPartsBack(b, at + 1, kind, raw, n, start);
    TypedEnd(kind, raw, at, SizeBytes(n), start);
  }

  /** What stands behind the type byte of a typed list, and what reads it. */
  lemma TypedStands(b: Bytes, at: nat, kind: Kind, raw: Bytes, n: nat, start: nat)
    requires Stands(b, at, Typed(kind, raw)) && n == Count(kind, raw) && start == at + 1 + |SizeBytes(n)|
    ensures ReadValue(b, at) == ReadTyped(b, at + 1, kind)
    ensures Holds(b, at + 1, SizeBytes(n) + TypedBody(kind, raw, start))
    ensures raw == [] ==> Multiple(start, Width(kind))
    ensures n < U32_LIMIT && SizeOf(kind, n) == |raw|
  {
    TypeRead(b, at, Typed(kind, raw));
    TypedDispatch(b, at, kind);
    TypedLayout(kind, raw, at, SizeBytes(n), start);
    EmptyStart(kind, raw, at, n, start);
  }

  lemma TypedLayout(kind: Kind, raw: Bytes, at: nat, size: Bytes, start: nat)
    requires size == SizeBytes(Count(kind, raw)) && start == at + 1 + |size|
    ensures Body(Typed(kind, raw), at + 1) == size + TypedBody(kind, raw, start)
  {
    TypedBodyIs(kind, raw, at + 1);
    TypedBytesAre(kind, raw, at + 1, size, start);
  }

  lemma TypedBodyIs(kind: Kind, raw: Bytes, at: nat)
    ensures Body(Typed(kind, raw), at) == TypedBytes(kind, raw, at)
  {}

  lemma TypedBytesAre(kind: Kind, raw: Bytes, before: nat, size: Bytes, at: nat)
    requires size == SizeBytes(Count(kind, raw)) && at == before + |size|
    ensures TypedBytes(kind, raw, before) == size + TypedBody(kind, raw, at)
  {}

  lemma EncodedLength(v: Value, at: nat)
    ensures |Encoded(v, at)| == 1 + |Body(v, at + 1)|
  {}

  lemma TypedEnd(kind: Kind, raw: Bytes, at: nat, size: Bytes, start: nat)
    requires size == SizeBytes(Count(kind, raw)) && start == at + 1 + |size|
    ensures at + |Encoded(Typed(kind, raw), at)| == start + |TypedBody(kind, raw, start)|
  {
    EncodedLength(Typed(kind, raw), at);
    TypedLayout(kind, raw, at, size, start);
  }

  lemma EmptyStart(kind: Kind, raw: Bytes, at: nat, n: nat, start: nat)
    requires n == Count(kind, raw) && start == at + 1 + |SizeBytes(n)| && InStep(Typed(kind, raw), at)
    ensures raw == [] ==> Multiple(start, Width(kind))
  {}

  lemma TypedDispatch(b: Bytes, at: nat, kind: Kind)
    requires at < |b| && b[at] == KindType(kind)
    ensures ReadValue(b, at) == ReadTyped(b, at + 1, kind)
  {
    KindRoundTrip(kind);
  }

  lemma FixedBack(b: Bytes, at: nat, v: Value)
    requires (v.Null? || v.Boolean? || v.Int32? || v.Int64?) && Stands(b, at, v)
    ensures Back(b, at, v)
  {
    TypeRead(b, at, v);
    if v.Int32? || v.Int64? {
      RawRead(b, at + 1, v.raw);
    }
  }

  lemma SimpleBack(b: Bytes, at: nat, v: Value)
    requires Stands(b, at, v) && !v.List? && !v.Map?
    ensures Back(b, at, v)
  {
    if v.Float64? {
      assert v == Float64(v.raw);
      Float64Back(b, at, v.raw);
    } else if v.Text? {
      assert v == Text(v.raw);
      TextBack(b, at, v.raw);
    } else if v.Typed? {
      assert v == Typed(v.kind, v.raw);
      TypedBack(b, at, v.kind, v.raw);
    } else {
      FixedBack(b, at, v);
    }
  }

  lemma {:induction false} ListReadsBack(b: Bytes, at: nat, items: seq<Value>)
    requires Stands(b, at, List(items))
    ensures Back(b, at, List(items))
    decreases List(items), 0
  {
    TypeRead(b, at, List(items));
    var start := at + 1 + |SizeBytes(|items|)|;
    HoldsSplit(b, at + 1, SizeBytes(|items|), EncodedAll(items, start));
    SizeRead(b, at + 1, |items|);
    ItemsReadBack(b, start, items);
  }

  lemma {:induction false} MapReadsBack(b: Bytes, at: nat, entries: seq<Pair>)
    requires Stands(b, at, Map(entries))
    ensures Back(b, at, Map(entries))
    decreases Map(entries), 0
  {
    TypeRead(b, at, Map(entries));
    var start := at + 1 + |SizeBytes(|entries|)|;
    HoldsSplit(b, at + 1, SizeBytes(|entries|), EncodedPairs(entries, start));
    SizeRead(b, at + 1, |entries|);
    assert [] + entries == entries;
    PairsReadBack(b, start, entries, []);
  }

  /** Reading what was written gives the value back and ends where the writer ended. */
  lemma {:induction false} ReadsBack(b: Bytes, at: nat, v: Value)
    requires Stands(b, at, v)
    ensures Back(b, at, v)
    decreases v, 1
  {
    if v.List? {
      ListReadsBack(b, at, v.items);
    } else if v.Map? {
      MapReadsBack(b, at, v.entries);
    } else {
      SimpleBack(b, at, v);
    }
  }

  lemma {:induction false} ItemsReadBack(b: Bytes, at: nat, items: seq<Value>)
    requires AllSized(items) && AllInStep(items, at) && Holds(b, at, EncodedAll(items, at))
    ensures ReadItems(b, at, |items|) == (items, at + |EncodedAll(items, at)|)
    decreases items
  {
    if items != [] {
      var next := at + |Encoded(items[0], at)|;
      HoldsSplit(b, at, Encoded(items[0], at), EncodedAll(items[1..], next));
      ReadsBack(b, at, items[0]);
      ItemsReadBack(b, next, items[1..]);
      assert [items[0]] + items[1..] == items;
    }
  }

  lemma {:induction false} PairReadsBack(b: Bytes, at: nat, pair: Pair)
    requires PairSized(pair) && PairInStep(pair, at) && Holds(b, at, EncodedPair(pair, at))
    ensures ReadPair(b, at) == (pair, at + |EncodedPair(pair, at)|)
    decreases pair
  {
    var middle := at + |Encoded(pair.key, at)|;
    HoldsSplit(b, at, Encoded(pair.key, at), Encoded(pair.value, middle));
    ReadsBack(b, at, pair.key);
    ReadsBack(b, middle, pair.value);
  }

  /** One entry of a map. */
  lemma PairsStepBack(b: Bytes, at: nat, pair: Pair, next: nat, count: nat, sofar: seq<Pair>)
    requires count > 0 && ReadPair(b, at) == (pair, next) && Emplaced(sofar, pair) == sofar + [pair]
    ensures ReadPairs(b, at, count, sofar) == ReadPairs(b, next, count - 1, sofar + [pair])
  {}

  ghost predicate PairsStand(b: Bytes, at: nat, entries: seq<Pair>) {
    PairsSized(entries) && PairsInStep(entries, at) && Holds(b, at, EncodedPairs(entries, at))
  }

  ghost predicate PairsBack(b: Bytes, at: nat, entries: seq<Pair>, sofar: seq<Pair>) {
    ReadPairs(b, at, |entries|, sofar) == (sofar + entries, at + |EncodedPairs(entries, at)|)
  }

  /** The first entry and the others, one behind the other. */
  lemma PairsStandParts(b: Bytes, at: nat, entries: seq<Pair>)
    requires entries != [] && PairsStand(b, at, entries)
    ensures var first := EncodedPair(entries[0], at);
            && PairSized(entries[0]) && PairInStep(entries[0], at) && Holds(b, at, first)
            && PairsStand(b, at + |first|, entries[1..])
  {
    var first := EncodedPair(entries[0], at);
    HoldsSplit(b, at, first, EncodedPairs(entries[1..], at + |first|));
  }

  lemma PairsBackFrom(b: Bytes, at: nat, entries: seq<Pair>, sofar: seq<Pair>, next: nat)
    requires entries != [] && next == at + |EncodedPair(entries[0], at)|
    requires ReadPairs(b, at, |entries|, sofar) == ReadPairs(b, next, |entries[1..]|, sofar + [entries[0]])
    requires PairsBack(b, next, entries[1..], sofar + [entries[0]])
    ensures PairsBack(b, at, entries, sofar)
  {
    PairsLength(entries, at);
    Rejoined(sofar, entries);
  }

  lemma PairsLength(entries: seq<Pair>, at: nat)
    requires entries != []
    ensures var next := at + |EncodedPair(entries[0], at)|;
            at + |EncodedPairs(entries, at)| == next + |EncodedPairs(entries[1..], next)|
  {}

  lemma Rejoined(sofar: seq<Pair>, entries: seq<Pair>)
    requires entries != []
    ensures sofar + [entries[0]] + entries[1..] == sofar + entries
  {}

  lemma {:induction false} PairsReadBack(b: Bytes, at: nat, entries: seq<Pair>, sofar: seq<Pair>)
    requires PairsStand(b, at, entries) && KeysDistinct(sofar + entries)
    ensures PairsBack(b, at, entries, sofar)
    decreases entries
  {
    if entries == [] {
      assert sofar + entries == sofar;
    } else {
      var next := at + |EncodedPair(entries[0], at)|;
      PairsStandParts(b, at, entries);
      NewKey(sofar, entries);
      assert ReadPairs(b, at, |entries|, sofar) == ReadPairs(b, next, |entries[1..]|, sofar + [entries[0]]) by {
        PairReadsBack(b, at, entries[0]);
        PairsStepBack(b, at, entries[0], next, |entries|, sofar);
      }
      PairsReadBack(b, next, entries[1..], sofar + [entries[0]]);
      PairsBackFrom(b, at, entries, sofar, next);
    }
  }

  lemma NewKey(sofar: seq<Pair>, entries: seq<Pair>)
    requires entries != [] && KeysDistinct(sofar + entries)
    ensures Emplaced(sofar, entries[0]) == sofar + [entries[0]]
    ensures sofar + [entries[0]] + entries[1..] == sofar + entries
  {
    forall p | p in sofar ensures p.key != entries[0].key {
      var i :| 0 <= i < |sofar| && sofar[i] == p;
      assert (sofar + entries)[i].key != (sofar + entries)[|sofar|].key;
    }
  }
}
