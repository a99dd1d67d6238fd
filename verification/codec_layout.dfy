/** The bytes of the standard codec, value by value: types, sizes, alignment, and what the reader makes of bad input. */
module CodecLayout {
  import opened Bytes
  import opened StandardCodec

  // ---------------------------------------------------------------- sizes and alignment

  /** One byte below 254; 254 and two bytes, or 255 and four, the lowest first; larger sizes modulo 2^32. */
  lemma SizeLayout(n: nat)
    ensures n < 254 ==> SizeBytes(n) == [n]
    ensures 254 <= n < 65536 ==> SizeBytes(n) == [254, n % 256, n / 256]
    ensures 65536 <= n ==>
              && |SizeBytes(n)| == 5 && SizeBytes(n)[0] == 255
              && SizeBytes(n)[1] as int + 256 * SizeBytes(n)[2] as int + 65536 * SizeBytes(n)[3] as int
                 + 16777216 * SizeBytes(n)[4] as int == n % 4294967296
  {
    if n >= 65536 {
      var m := Truncated(n);
      var b := SizeBytes(n);
      assert m == n % 4294967296;
      assert b[1] == Little32(m)[0] && b[2] == Little32(m)[1] && b[3] == Little32(m)[2] && b[4] == Little32(m)[3];
    }
  }

  lemma Multiples(q: nat)
    ensures (4 * q) % 4 == 0 && (8 * q) % 8 == 0
  {}

  lemma Aligned(at: nat)
    ensures AlignUp(at, 4) < at + 4 && AlignUp(at, 4) % 4 == 0
    ensures AlignUp(at, 8) < at + 8 && AlignUp(at, 8) % 8 == 0
  {
    Multiples((at + 3) / 4);
    Multiples((at + 7) / 8);
  }

  /** As little padding as possible brings the position to a multiple. */
  lemma PaddingLayout(kind: Kind, at: nat)
    ensures forall i :: 0 <= i < |Padding(kind, at)| ==> Padding(kind, at)[i] == 0
    ensures var w, next := ElementBytes(kind), at + |Padding(kind, at)|;
            && next < at + w && (w == 4 ==> next % 4 == 0) && (w == 8 ==> next % 8 == 0)
  {
    Aligned(at);
  }

  // ---------------------------------------------------------------- values

  function ElementBytes(kind: Kind): nat {
    match kind
    case UInt8s => 1
    case Int32s => 4
    case Float32s => 4
    case _ => 8
  }

  /** Null is 0, and a custom value too; true is 1, false 2, the integers 3 and 4, a text 7 with its size. */
  lemma ScalarLayout(raw: Bytes, at: nat)
    ensures Encoded(Null, at) == [0] && Encoded(Boolean(true), at) == [1] && Encoded(Boolean(false), at) == [2]
    ensures Encoded(Int32(raw), at) == [3] + raw && Encoded(Int64(raw), at) == [4] + raw
    ensures Encoded(Text(raw), at) == [7] + (SizeBytes(|raw|) + raw)
    ensures forall content :: Encoded(Custom(content), at) == [0]
  {}

  /** A double is 6 and begins at the next multiple of 8. */
  lemma DoubleLayout(raw: Bytes, at: nat)
    ensures exists zeros: nat ::
              zeros < 8 && (at + 1 + zeros) % 8 == 0 && Encoded(Float64(raw), at) == [6] + (Zeros(zeros) + raw)
  {
    AlignByRest(at + 1, 8);
    var zeros: nat := AlignUp(at + 1, 8) - (at + 1);
    assert Encoded(Float64(raw), at) == [6] + (Zeros(zeros) + raw);
  }

  function TypeByte(kind: Kind): byte {
    match kind
    case UInt8s => 8
    case Int32s => 9
    case Int64s => 10
    case Float64s => 11
    case Float32s => 14
  }

  lemma CountOf(kind: Kind, raw: Bytes, count: nat)
    requires |raw| == count * ElementBytes(kind)
    ensures Count(kind, raw) == count && TypeOf(Typed(kind, raw)) == TypeByte(kind)
  {}

  lemma TypedEncoding(kind: Kind, raw: Bytes, at: nat)
    ensures Encoded(Typed(kind, raw), at) == [TypeOf(Typed(kind, raw))] + TypedBytes(kind, raw, at + 1)
  {}

  /** A typed list: its type, the number of its elements, and unless it is empty the padding and the elements. */
  lemma TypedLayout(kind: Kind, raw: Bytes, at: nat, count: nat)
    requires |raw| == count * ElementBytes(kind)
    ensures var size := SizeBytes(count);
            Encoded(Typed(kind, raw), at)
            == [TypeByte(kind)] + (if raw == [] then size else size + (Padding(kind, at + 1 + |size|) + raw))
  {
    CountOf(kind, raw, count);
    TypedEncoding(kind, raw, at);
    TypedBytesLayout(kind, raw, at + 1, SizeBytes(count), at + 1 + |SizeBytes(count)|);
  }

  // ---------------------------------------------------------------- lists and maps

  /** A list is 12, its size and its items, each where the one before ends. */
  lemma ListLayout(items: seq<Value>, at: nat)
    ensures Encoded(List(items), at)
            == [12] + (SizeBytes(|items|) + EncodedAll(items, at + 1 + |SizeBytes(|items|)|))
    ensures EncodedAll([], at) == []
  {}

  lemma FirstItem(first: Value, rest: seq<Value>, at: nat)
    ensures EncodedAll([first] + rest, at) == Encoded(first, at) + EncodedAll(rest, at + |Encoded(first, at)|)
  {
    assert ([first] + rest)[1..] == rest;
  }

  lemma OneItem(last: Value, at: nat)
    ensures EncodedAll([last], at) == Encoded(last, at)
  {
    FirstItem(last, [], at);
    assert [last] + [] == [last];
    assert Encoded(last, at) + [] == Encoded(last, at);
  }

  lemma Shift<T>(first: T, rest: seq<T>, last: T)
    ensures [first] + rest + [last] == [first] + (rest + [last])
  {}

  lemma ItemsBehindFirst(first: Value, rest: seq<Value>, last: Value, at: nat)
    requires var next := at + |Encoded(first, at)|;
             EncodedAll(rest + [last], next) == EncodedAll(rest, next) + Encoded(last, next + |EncodedAll(rest, next)|)
    ensures var before := EncodedAll([first] + rest, at);
            EncodedAll([first] + (rest + [last]), at) == before + Encoded(last, at + |before|)
  {
    var next := at + |Encoded(first, at)|;
    FirstItem(first, rest, at);
    FirstItem(first, rest + [last], at);
    Joined(Encoded(first, at), EncodedAll(rest, next), Encoded(last, next + |EncodedAll(rest, next)|));
  }

  /** The last item stands where the items before it end. */
  lemma {:induction false} ItemsLayout(items: seq<Value>, last: Value, at: nat)
    ensures EncodedAll(items + [last], at) == EncodedAll(items, at) + Encoded(last, at + |EncodedAll(items, at)|)
  {
    if items == [] {
      OneItem(last, at);
      assert items + [last] == [last];
    } else {
      var first, rest := items[0], items[1..];
      ItemsLayout(rest, last, at + |Encoded(first, at)|);
      ItemsBehindFirst(first, rest, last, at);
      Shift(first, rest, last);
      assert [first] + rest == items;
    }
  }

  lemma Joined(a: Bytes, b: Bytes, c: Bytes)
    ensures a + (b + c) == (a + b) + c && |a + b| == |a| + |b|
  {}

  /** A map is 13, its size and its entries, each a key and its value. */
  lemma MapLayout(entries: seq<Pair>, at: nat)
    ensures Encoded(Map(entries), at)
            == [13] + (SizeBytes(|entries|) + EncodedPairs(entries, at + 1 + |SizeBytes(|entries|)|))
    ensures EncodedPairs([], at) == []
  {}

  lemma FirstEntry(first: Pair, rest: seq<Pair>, at: nat)
    ensures EncodedPairs([first] + rest, at) == EncodedPair(first, at) + EncodedPairs(rest, at + |EncodedPair(first, at)|)
  {
    assert ([first] + rest)[1..] == rest;
  }

  lemma OneEntry(last: Pair, at: nat)
    ensures EncodedPairs([last], at) == EncodedPair(last, at)
  {
    FirstEntry(last, [], at);
    assert [last] + [] == [last];
    assert EncodedPair(last, at) + [] == EncodedPair(last, at);
  }

  lemma EntryLayout(pair: Pair, at: nat)
    ensures EncodedPair(pair, at) == Encoded(pair.key, at) + Encoded(pair.value, at + |Encoded(pair.key, at)|)
  {}

  /** The last entry stands where the entries before it end. */
  lemma {:induction false} EntriesLayout(entries: seq<Pair>, last: Pair, at: nat)
    ensures EncodedPairs(entries + [last], at)
            == EncodedPairs(entries, at) + EncodedPair(last, at + |EncodedPairs(entries, at)|)
  {
    if entries == [] {
      OneEntry(last, at);
      assert entries + [last] == [last];
      assert EncodedPairs(entries, at) == [];
    } else {
      var first, rest := entries[0], entries[1..];
      assert entries == [first] + rest;
      var next := at + |EncodedPair(first, at)|;
      EntriesLayout(rest, last, next);
      Shift(first, rest, last);
      FirstEntry(first, rest, at);
      FirstEntry(first, rest + [last], at);
      Joined(EncodedPair(first, at), EncodedPairs(rest, next), EncodedPair(last, next + |EncodedPairs(rest, next)|));
    }
  }

  // ---------------------------------------------------------------- bad input

  /** Past the end there is null; an unknown type is null too; type 5 is read as a text. */
  lemma BadTypes(b: Bytes, at: nat)
    ensures at >= |b| ==> ReadValue(b, at) == (Null, at)
    ensures at < |b| && (b[at] == 0 || b[at] > 14) ==> ReadValue(b, at) == (Null, at + 1)
    ensures at < |b| && b[at] == 5 ==> ReadValue(b, at) == ReadValue(b[at := 7], at)
  {
    if at < |b| && b[at] == 5 {
      var c := b[at := 7];
      assert forall i, j :: at < i <= j <= |b| ==> b[i..j] == c[i..j];
    }
  }

  /** Bytes that are not all there read as zeros, and the reader stays where it is. */
  lemma MissingBytes(b: Bytes, at: nat, length: nat)
    ensures at + length > |b| ==> ReadBytes(b, at, length) == (Zeros(length), at)
    ensures at >= |b| ==> ReadByte(b, at) == (0, at)
  {}

  /** The first entry of a key stays. */
  lemma RepeatedKey(entries: seq<Pair>, key: Value, first: Value, second: Value)
    requires forall i :: 0 <= i < |entries| ==> entries[i].key != key
    ensures Emplaced(Emplaced(entries, Pair(key, first)), Pair(key, second)) == entries + [Pair(key, first)]
  {
    var longer := entries + [Pair(key, first)];
    assert longer[|entries|] == Pair(key, first);
    assert HasKey(longer, key);
  }
}
