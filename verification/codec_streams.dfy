/** The streams of byte_buffer_streams.h and the serializer that moves through them. */
module CodecStreams {
  import opened Common
  import opened Bytes
  import opened StandardCodec

  class Writer {
    var bytes: Bytes

    constructor ()
      ensures bytes == []
    {
      bytes := [];
    }

    method WriteByte(x: byte)
      modifies this
      ensures bytes == old(bytes) + [x]
    {
      bytes := bytes + [x];
    }

    method WriteBytes(chunk: Bytes)
      requires |chunk| > 0
      modifies this
      ensures bytes == old(bytes) + chunk
    {
      bytes := bytes + chunk;
    }

    method WriteAlignment(alignment: nat)
      requires alignment == 1 || alignment == 4 || alignment == 8
      modifies this
      ensures bytes == old(bytes) + Zeros(AlignUp(|old(bytes)|, alignment) - |old(bytes)|)
    {
      AlignByRest(|bytes|, alignment);
      var rest := if alignment == 8 then |bytes| % 8 else if alignment == 4 then |bytes| % 4 else 0;
      if rest != 0 {
        for i := 0 to alignment - rest
          invariant bytes == old(bytes) + Zeros(i)
        {
          WriteByte(0);
        }
      }
    }
  }

  class Reader {
    const bytes: Bytes
    var location: nat

    constructor (bytes: Bytes)
      ensures this.bytes == bytes && location == 0
    {
      this.bytes := bytes;
      location := 0;
    }

    method Byte() returns (x: byte)
      modifies this
      ensures (x, location) == ReadByte(bytes, old(location))
    {
      if location >= |bytes| {
        return 0;
      }
      x := bytes[location];
      location := location + 1;
    }

    /** Fills a zeroed buffer of the given length. */
    method Raw(length: nat) returns (buffer: Bytes)
      modifies this
      ensures (buffer, location) == ReadBytes(bytes, old(location), length)
    {
      buffer := Zeros(length);
      if location + length > |bytes| {
        return;
      }
      buffer := bytes[location..location + length];
      location := location + length;
    }

    method Align(alignment: nat)
      requires alignment == 1 || alignment == 4 || alignment == 8
      modifies this
      ensures location == AlignUp(old(location), alignment)
    {
      AlignByRest(location, alignment);
      var rest := if alignment == 8 then location % 8 else if alignment == 4 then location % 4 else 0;
      if rest != 0 {
        location := location + alignment - rest;
      }
    }
  }

  // ---------------------------------------------------------------- writing

  method WriteSize(size: nat, stream: Writer)
    modifies stream
    ensures stream.bytes == old(stream.bytes) + SizeBytes(size)
  {
    if size < 254 {
      stream.WriteByte(size);
    } else if size <= 0xFFFF {
      stream.WriteByte(254);
      stream.WriteBytes(Little16(size));
    } else {
      stream.WriteByte(255);
      stream.WriteBytes(Little32(Truncated(size)));
    }
  }

  method WriteVector(kind: Kind, raw: Bytes, stream: Writer)
    requires Whole(kind, raw)
    modifies stream
    ensures stream.bytes == old(stream.bytes) + Body(Typed(kind, raw), |old(stream.bytes)|)
  {
    var count := Count(kind, raw);
    ghost var before, size := stream.bytes, SizeBytes(count);
    WriteSize(count, stream);
    ghost var at := |stream.bytes|;
    TypedBodyLayout(kind, raw, |before|, size, at);
    if count == 0 {
      return;
    }
    WriteElements(kind, raw, stream);
    Regroup(before, size, Padding(kind, at), raw);
  }

  method WriteElements(kind: Kind, raw: Bytes, stream: Writer)
    requires raw != []
    modifies stream
    ensures stream.bytes == old(stream.bytes) + Padding(kind, |old(stream.bytes)|) + raw
  {
    if Width(kind) > 1 {
      stream.WriteAlignment(Width(kind));
    }
    stream.WriteBytes(raw);
  }

  lemma Regroup(before: Bytes, size: Bytes, padding: Bytes, raw: Bytes)
    ensures before + (size + (padding + raw)) == before + size + padding + raw
  {
    Associative(before, size, padding + raw);
    Associative(before + size, padding, raw);
  }

  method WriteText(raw: Bytes, stream: Writer)
    modifies stream
    ensures stream.bytes == old(stream.bytes) + Body(Text(raw), |old(stream.bytes)|)
  {
    WriteSize(|raw|, stream);
    if |raw| > 0 {
      stream.WriteBytes(raw);
    }
  }

  method WriteDouble(raw: Bytes, stream: Writer)
    requires |raw| == 8
    modifies stream
    ensures stream.bytes == old(stream.bytes) + Body(Float64(raw), |old(stream.bytes)|)
  {
    stream.WriteAlignment(8);
    stream.WriteBytes(raw);
  }

  method WriteItems(items: seq<Value>, stream: Writer)
    requires Formed(List(items))
    modifies stream
    ensures stream.bytes == old(stream.bytes) + Body(List(items), |old(stream.bytes)|)
    decreases List(items), 0
  {
    WriteSize(|items|, stream);
    ghost var rest, total := items, stream.bytes + EncodedAll(items, |stream.bytes|);
    ItemsTotal(old(stream.bytes), items);
    var i := 0;
    while i < |items|
      invariant i <= |items| && rest == items[i..]
      invariant ItemsWritten(stream.bytes, rest, total)
    {
      ItemsStep(stream.bytes, rest);
      WriteValue(items[i], stream);
      rest := rest[1..];
      i := i + 1;
    }
    ItemsDone(stream.bytes, rest, total);
  }

  /** With what is still to come, the list is complete. */
  ghost predicate ItemsWritten(bytes: Bytes, rest: seq<Value>, total: Bytes) {
    bytes + EncodedAll(rest, |bytes|) == total
  }

  lemma ItemsStep(before: Bytes, rest: seq<Value>)
    requires rest != []
    ensures var after := before + Encoded(rest[0], |before|);
            after + EncodedAll(rest[1..], |after|) == before + EncodedAll(rest, |before|)
  {
    Associative(before, Encoded(rest[0], |before|), EncodedAll(rest[1..], |before| + |Encoded(rest[0], |before|)|));
  }

  lemma ItemsDone(bytes: Bytes, rest: seq<Value>, total: Bytes)
    requires rest == [] && ItemsWritten(bytes, rest, total)
    ensures bytes == total
  {
    assert bytes + [] == bytes;
  }

  lemma ItemsTotal(before: Bytes, items: seq<Value>)
    ensures var start := before + SizeBytes(|items|);
            start + EncodedAll(items, |start|) == before + Body(List(items), |before|)
  {
    Associative(before, SizeBytes(|items|), EncodedAll(items, |before| + |SizeBytes(|items|)|));
  }

  method WritePairs(entries: seq<Pair>, stream: Writer)
    requires Formed(Map(entries))
    modifies stream
    ensures stream.bytes == old(stream.bytes) + Body(Map(entries), |old(stream.bytes)|)
    decreases Map(entries), 0
  {
    WriteSize(|entries|, stream);
    ghost var rest, total := entries, stream.bytes + EncodedPairs(entries, |stream.bytes|);
    PairsTotal(old(stream.bytes), entries);
    var i := 0;
    while i < |entries|
      invariant i <= |entries| && rest == entries[i..]
      invariant PairsWritten(stream.bytes, rest, total)
    {
      PairsStep(stream.bytes, rest);
      WritePair(entries[i], stream);
      rest := rest[1..];
      i := i + 1;
    }
    PairsDone(stream.bytes, rest, total);
  }

  /** With what is still to come, the map is complete. */
  ghost predicate PairsWritten(bytes: Bytes, rest: seq<Pair>, total: Bytes) {
    bytes + EncodedPairs(rest, |bytes|) == total
  }

  lemma PairsStep(before: Bytes, rest: seq<Pair>)
    requires rest != []
    ensures var after := before + EncodedPair(rest[0], |before|);
            after + EncodedPairs(rest[1..], |after|) == before + EncodedPairs(rest, |before|)
  {
    Associative(before, EncodedPair(rest[0], |before|), EncodedPairs(rest[1..], |before| + |EncodedPair(rest[0], |before|)|));
  }

  lemma PairsDone(bytes: Bytes, rest: seq<Pair>, total: Bytes)
    requires rest == [] && PairsWritten(bytes, rest, total)
    ensures bytes == total
  {
    assert bytes + [] == bytes;
  }

  lemma PairsTotal(before: Bytes, entries: seq<Pair>)
    ensures var start := before + SizeBytes(|entries|);
            start + EncodedPairs(entries, |start|) == before + Body(Map(entries), |before|)
  {
    Associative(before, SizeBytes(|entries|), EncodedPairs(entries, |before| + |SizeBytes(|entries|)|));
  }

  method WritePair(pair: Pair, stream: Writer)
    requires Formed(pair.key) && Formed(pair.value)
    modifies stream
    ensures stream.bytes == old(stream.bytes) + EncodedPair(pair, |old(stream.bytes)|)
    decreases pair
  {
    ghost var before := stream.bytes;
    ghost var first := Encoded(pair.key, |before|);
    ghost var second := Encoded(pair.value, |before| + |first|);
    WriteValue(pair.key, stream);
    WriteValue(pair.value, stream);
    PairUnfold(pair, |before|, first, second);
    Associative(before, first, second);
  }

  lemma PairUnfold(pair: Pair, at: nat, first: Bytes, second: Bytes)
    requires first == Encoded(pair.key, at) && second == Encoded(pair.value, at + |first|)
    ensures EncodedPair(pair, at) == first + second
  {}

  /** What `WriteValue` writes behind the type byte. */
  method WriteBody(v: Value, stream: Writer)
    requires Formed(v)
    modifies stream
    ensures stream.bytes == old(stream.bytes) + Body(v, |old(stream.bytes)|)
    decreases v, 1
  {
    match v {
      case Null =>
      case Boolean(_) =>
      case Int32(raw) => stream.WriteBytes(raw);
      case Int64(raw) => stream.WriteBytes(raw);
      case Float64(raw) => WriteDouble(raw, stream);
      case Text(raw) => WriteText(raw, stream);
      case Typed(kind, raw) => WriteVector(kind, raw, stream);
      case List(items) => WriteItems(items, stream);
      case Map(entries) => WritePairs(entries, stream);
      case Custom(_) =>
    }
  }

  /** `StandardCodecSerializer::WriteValue` */
  method WriteValue(v: Value, stream: Writer)
    requires Formed(v)
    modifies stream
    ensures stream.bytes == old(stream.bytes) + Encoded(v, |old(stream.bytes)|)
    decreases v, 2
  {
    stream.WriteByte(TypeOf(v));
    ghost var start := stream.bytes;
    WriteBody(v, stream);
    Associative(old(stream.bytes), [TypeOf(v)], Body(v, |start|));
  }

  // ---------------------------------------------------------------- reading

  method Size(stream: Reader) returns (size: nat)
    modifies stream
    ensures (size, stream.location) == ReadSize(stream.bytes, old(stream.location))
  {
    var first := stream.Byte();
    if first < 254 {
      return first;
    }
    if first == 254 {
      var raw := stream.Raw(2);
      return FromLittle16(raw);
    }
    var raw := stream.Raw(4);
    return FromLittle32(raw);
  }

  method Vector(kind: Kind, stream: Reader) returns (v: Value)
    modifies stream
    ensures (v, stream.location) == ReadTyped(stream.bytes, old(stream.location), kind)
  {
    var count := Size(stream);
    if Width(kind) > 1 {
      stream.Align(Width(kind));
    }
    var raw := stream.Raw(SizeOf(kind, count));
    return Typed(kind, raw);
  }

  method Items(count: nat, stream: Reader) returns (items: seq<Value>)
    modifies stream
    ensures (items, stream.location) == ReadItems(stream.bytes, old(stream.location), count)
    decreases Rest(stream.bytes, stream.location), 1
  {
    items := [];
    ghost var start := stream.location;
    var i := 0;
    while i < count
      invariant i <= count && start <= stream.location
      invariant ReadItems(stream.bytes, start, count).0
                == items + ReadItems(stream.bytes, stream.location, count - i).0
      invariant ReadItems(stream.bytes, start, count).1 == ReadItems(stream.bytes, stream.location, count - i).1
    {
      ItemsRead(stream.bytes, stream.location, count - i);
      var item := Read(stream);
      items := items + [item];
      i := i + 1;
    }
    assert items == ReadItems(stream.bytes, start, count).0;
  }

  method Pairs(count: nat, stream: Reader) returns (entries: seq<Pair>)
    modifies stream
    ensures (entries, stream.location) == ReadPairs(stream.bytes, old(stream.location), count, [])
    decreases Rest(stream.bytes, stream.location), 1
  {
    entries := [];
    ghost var start := stream.location;
    var i := 0;
    while i < count
      invariant i <= count && start <= stream.location
      invariant ReadPairs(stream.bytes, start, count, [])
                == ReadPairs(stream.bytes, stream.location, count - i, entries)
    {
      PairsRead(stream.bytes, stream.location, count - i, entries);
      var key := Read(stream);
      var value := Read(stream);
      if !HasKey(entries, key) {
        entries := entries + [Pair(key, value)];
      }
      i := i + 1;
    }
  }

  /** `StandardCodecSerializer::ReadValue` */
  method Read(stream: Reader) returns (v: Value)
    modifies stream
    ensures (v, stream.location) == ReadValue(stream.bytes, old(stream.location))
    decreases Rest(stream.bytes, stream.location), 0
  {
    if stream.location >= |stream.bytes| {
      var _ := stream.Byte();
      return Null;
    }
    var t := stream.Byte();
    v := ReadOfType(t, stream);
  }

  /** `StandardCodecSerializer::ReadValueOfType`, behind the type byte. */
  method ReadOfType(t: byte, stream: Reader) returns (v: Value)
    requires 1 <= stream.location <= |stream.bytes| && stream.bytes[stream.location - 1] == t
    modifies stream
    ensures (v, stream.location) == ReadValue(stream.bytes, old(stream.location) - 1)
    decreases Rest(stream.bytes, stream.location), 2
  {
    if t == 1 {
      return Boolean(true);
    } else if t == 2 {
      return Boolean(false);
    } else if t == 3 {
      var raw := stream.Raw(4);
      return Int32(raw);
    } else if t == 4 {
      var raw := stream.Raw(8);
      return Int64(raw);
    } else if t == 6 {
      stream.Align(8);
      var raw := stream.Raw(8);
      return Float64(raw);
    } else if t == 5 || t == 7 {
      var size := Size(stream);
      var raw := stream.Raw(size);
      return Text(raw);
    } else if t == 8 || t == 9 || t == 10 || t == 11 || t == 14 {
      v := Vector(KindOf(t), stream);
    } else if t == 12 {
      var count := Size(stream);
      var items := Items(count, stream);
      return List(items);
    } else if t == 13 {
      var count := Size(stream);
      var entries := Pairs(count, stream);
      return Map(entries);
    } else {
      return Null;
    }
  }
}
