/**
 The Flutter standard codec: what the writer appends for a value at a position, and what the reader
 makes of any bytes. Numbers are their bytes in memory, which is what both sides copy. A map is its
 entries in the order in which std::map iterates.
 */
module StandardCodec {
  import opened Bytes

  datatype Kind = UInt8s | Int32s | Int64s | Float64s | Float32s

  datatype Value =
    | Null
    | Boolean(value: bool)
    | Int32(raw: Bytes)
    | Int64(raw: Bytes)
    | Float64(raw: Bytes)
    | Text(raw: Bytes)
    | Typed(kind: Kind, raw: Bytes)
    | List(items: seq<Value>)
    | Map(entries: seq<Pair>)
    | Custom(content: nat)

  datatype Pair = Pair(key: Value, value: Value)

  function Width(kind: Kind): (w: nat)
    ensures w == 1 || w == 4 || w == 8
  {
    match kind
    case UInt8s => 1
    case Int32s => 4
    case Int64s => 8
    case Float64s => 8
    case Float32s => 4
  }

  /** The constants of EncodedType; a custom value has none and gets that of null, where assertions are off. */
  function KindType(kind: Kind): byte {
    match kind
    case UInt8s => 8
    case Int32s => 9
    case Int64s => 10
    case Float64s => 11
    case Float32s => 14
  }

  function TypeOf(v: Value): byte {
    match v
    case Null => 0
    case Boolean(b) => if b then 1 else 2
    case Int32(_) => 3
    case Int64(_) => 4
    case Float64(_) => 6
    case Text(_) => 7
    case Typed(kind, _) => KindType(kind)
    case List(_) => 12
    case Map(_) => 13
    case Custom(_) => 0
  }

  predicate Multiple(at: nat, alignment: nat) {
    if alignment == 8 then at % 8 == 0 else if alignment == 4 then at % 4 == 0 else true
  }

  /** The next multiple of an alignment. */
  function AlignUp(at: nat, alignment: nat): (r: nat)
    requires alignment == 1 || alignment == 4 || alignment == 8
    ensures at <= r < at + alignment
  {
    if alignment == 8 then 8 * ((at + 7) / 8) else if alignment == 4 then 4 * ((at + 3) / 4) else at
  }

  lemma RoundUp8(x: nat)
    ensures 8 * ((x + 7) / 8) == if x % 8 == 0 then x else x + 8 - x % 8
  {
    var q, m := x / 8, x % 8;
    assert x == 8 * q + m;
    if m == 0 {
      assert (x + 7) / 8 == q;
    } else {
      assert x + 7 == 8 * (q + 1) + (m - 1);
      assert (x + 7) / 8 == q + 1;
    }
  }

  lemma RoundUp4(x: nat)
    ensures 4 * ((x + 3) / 4) == if x % 4 == 0 then x else x + 4 - x % 4
  {
    var q, m := x / 4, x % 4;
    assert x == 4 * q + m;
    if m == 0 {
      assert (x + 3) / 4 == q;
    } else {
      assert x + 3 == 4 * (q + 1) + (m - 1);
      assert (x + 3) / 4 == q + 1;
    }
  }

  /** As the streams compute it: what is missing to the next multiple is added. */
  lemma AlignByRest(at: nat, alignment: nat)
    requires alignment == 1 || alignment == 4 || alignment == 8
    ensures alignment == 8 ==> AlignUp(at, alignment) == if at % 8 == 0 then at else at + 8 - at % 8
    ensures alignment == 4 ==> AlignUp(at, alignment) == if at % 4 == 0 then at else at + 4 - at % 4
    ensures AlignUp(at, alignment) == at <==> Multiple(at, alignment)
  {
    if alignment == 8 {
      RoundUp8(at);
    } else if alignment == 4 {
      RoundUp4(at);
    }
  }

  function Little16(n: nat): Bytes
    requires n < 0x1_0000
  {
    [n % 256, n / 256]
  }

  function Little32(n: nat): Bytes
    requires n < U32_LIMIT
  {
    Little16(n % 0x1_0000) + Little16(n / 0x1_0000)
  }

  // ---------------------------------------------------------------- writing

  /** `static_cast<uint32_t>(size)` */
  function Truncated(n: nat): (m: nat)
    ensures m < U32_LIMIT && (n < U32_LIMIT ==> m == n)
  {
    if n < U32_LIMIT then n else n % U32_LIMIT
  }

  function SizeBytes(n: nat): (b: Bytes)
    ensures 1 <= |b| <= 5
  {
    if n < 254 then [n]
    else if n <= 0xFFFF then [254] + Little16(n)
    else [255] + Little32(Truncated(n))
  }

  /** count * type_size */
  function SizeOf(kind: Kind, count: nat): nat {
    if Width(kind) == 8 then 8 * count else if Width(kind) == 4 then 4 * count else count
  }

  /** The elements that fit into so many bytes. */
  function Count(kind: Kind, raw: Bytes): nat {
    if Width(kind) == 8 then |raw| / 8 else if Width(kind) == 4 then |raw| / 4 else |raw|
  }

  /** The bytes are whole elements. */
  predicate Whole(kind: Kind, raw: Bytes) {
    SizeOf(kind, Count(kind, raw)) == |raw|
  }

  /** What a value of the client is: numbers have their width and typed lists whole elements. */
  predicate Formed(v: Value)
    decreases v
  {
    match v
    case Int32(raw) => |raw| == 4
    case Int64(raw) => |raw| == 8
    case Float64(raw) => |raw| == 8
    case Typed(kind, raw) => Whole(kind, raw)
    case List(items) => forall i :: 0 <= i < |items| ==> Formed(items[i])
    case Map(entries) => forall i :: 0 <= i < |entries| ==> Formed(entries[i].key) && Formed(entries[i].value)
    case _ => true
  }

  /** Besides, sizes are below 2^32, the keys of a map are distinct, and nothing is of a custom type. */
  predicate WellSized(v: Value)
    decreases v
  {
    match v
    case Null => true
    case Boolean(_) => true
    case Int32(raw) => |raw| == 4
    case Int64(raw) => |raw| == 8
    case Float64(raw) => |raw| == 8
    case Text(raw) => |raw| < U32_LIMIT
    case Typed(kind, raw) => Whole(kind, raw) && Count(kind, raw) < U32_LIMIT
    case List(items) => |items| < U32_LIMIT && AllSized(items)
    case Map(entries) => |entries| < U32_LIMIT && PairsSized(entries) && KeysDistinct(entries)
    case Custom(_) => false
  }

  predicate AllSized(items: seq<Value>)
    decreases items
  {
    items == [] || (WellSized(items[0]) && AllSized(items[1..]))
  }

  predicate PairSized(pair: Pair)
    decreases pair
  {
    WellSized(pair.key) && WellSized(pair.value)
  }

  predicate PairsSized(entries: seq<Pair>)
    decreases entries
  {
    entries == [] || (PairSized(entries[0]) && PairsSized(entries[1..]))
  }

  predicate KeysDistinct(entries: seq<Pair>) {
    forall i, j :: 0 <= i < j < |entries| ==> entries[i].key != entries[j].key
  }

  function Padding(kind: Kind, at: nat): Bytes {
    Zeros(AlignUp(at, Width(kind)) - at)
  }

  /** A typed list; when it is empty nothing follows its size, not even padding. */
  function TypedBody(kind: Kind, raw: Bytes, at: nat): Bytes {
    if raw == [] then [] else Padding(kind, at) + raw
  }

  function TypedBytes(kind: Kind, raw: Bytes, at: nat): Bytes {
    SizeBytes(Count(kind, raw)) + TypedBody(kind, raw, at + |SizeBytes(Count(kind, raw))|)
  }

  /** What follows the type byte, written at position `at`. */
  function Body(v: Value, at: nat): Bytes
    decreases v, 0
  {
    match v
    case Null => []
    case Boolean(_) => []
    case Int32(raw) => raw
    case Int64(raw) => raw
    case Float64(raw) => Zeros(AlignUp(at, 8) - at) + raw
    case Text(raw) => SizeBytes(|raw|) + raw
    case Typed(kind, raw) => TypedBytes(kind, raw, at)
    case List(items) => SizeBytes(|items|) + EncodedAll(items, at + |SizeBytes(|items|)|)
    case Map(entries) => SizeBytes(|entries|) + EncodedPairs(entries, at + |SizeBytes(|entries|)|)
    case Custom(_) => []
  }

  /** WriteValue at position `at`. */
  function Encoded(v: Value, at: nat): Bytes
    decreases v, 1
  {
    [TypeOf(v)] + Body(v, at + 1)
  }

  function EncodedAll(items: seq<Value>, at: nat): Bytes
    decreases items
  {
    if items == [] then []
    else
      var first := Encoded(items[0], at);
      first + EncodedAll(items[1..], at + |first|)
  }

  function EncodedPair(pair: Pair, at: nat): Bytes
    decreases pair
  {
    var key := Encoded(pair.key, at);
    key + Encoded(pair.value, at + |key|)
  }

  function EncodedPairs(entries: seq<Pair>, at: nat): Bytes
    decreases entries
  {
    if entries == [] then []
    else
      var first := EncodedPair(entries[0], at);
      first + EncodedPairs(entries[1..], at + |first|)
  }

  lemma TypedBytesLayout(kind: Kind, raw: Bytes, before: nat, size: Bytes, at: nat)
    requires size == SizeBytes(Count(kind, raw)) && at == before + |size|
    ensures TypedBytes(kind, raw, before) == if raw == [] then size else size + (Padding(kind, at) + raw)
  {
    assert size + [] == size;
  }

  lemma TypedBodyLayout(kind: Kind, raw: Bytes, before: nat, size: Bytes, at: nat)
    requires Whole(kind, raw) && size == SizeBytes(Count(kind, raw)) && at == before + |size|
    ensures Count(kind, raw) == 0 <==> raw == []
    ensures Body(Typed(kind, raw), before) == if raw == [] then size else size + (Padding(kind, at) + raw)
  {
    TypedBytesLayout(kind, raw, before, size, at);
  }

  // ---------------------------------------------------------------- reading

  /** A byte past the end reads as 0 and does not move. */
  function ReadByte(b: Bytes, at: nat): (r: (byte, nat))
    ensures at <= r.1
  {
    if at < |b| then (b[at], at + 1) else (0, at)
  }

  /** A read past the end leaves the zeroed buffer and does not move. */
  function ReadBytes(b: Bytes, at: nat, length: nat): (r: (Bytes, nat))
    ensures at <= r.1 && |r.0| == length
  {
    if at + length > |b| then (Zeros(length), at) else (b[at..at + length], at + length)
  }

  function FromLittle16(b: Bytes): nat
    requires |b| == 2
  {
    (b[0] as nat) + 256 * (b[1] as nat)
  }

  function FromLittle32(b: Bytes): nat
    requires |b| == 4
  {
    FromLittle16(b[..2]) + 0x1_0000 * FromLittle16(b[2..])
  }

  function ReadSize(b: Bytes, at: nat): (r: (nat, nat))
    ensures at <= r.1
  {
    var (first, next) := ReadByte(b, at);
    if first < 254 then (first, next)
    else if first == 254 then
      var (raw, end) := ReadBytes(b, next, 2);
      (FromLittle16(raw), end)
    else
      var (raw, end) := ReadBytes(b, next, 4);
      (FromLittle32(raw), end)
  }

  function KindOf(t: byte): Kind
    requires t == 8 || t == 9 || t == 10 || t == 11 || t == 14
  {
    if t == 8 then UInt8s else if t == 9 then Int32s else if t == 10 then Int64s
    else if t == 11 then Float64s else Float32s
  }

  function ReadTyped(b: Bytes, at: nat, kind: Kind): (r: (Value, nat))
    ensures at <= r.1
  {
    var (count, next) := ReadSize(b, at);
    var (raw, end) := ReadBytes(b, AlignUp(next, Width(kind)), SizeOf(kind, count));
    (Typed(kind, raw), end)
  }

  /** How much is left; it bounds the depth of what can still be read. */
  function Rest(b: Bytes, at: nat): nat {
    if at < |b| then |b| - at else 0
  }

  function ReadValue(b: Bytes, at: nat): (r: (Value, nat))
    ensures at <= r.1
    decreases Rest(b, at), 0, 0
  {
    if at >= |b| then (Null, at)
    else
      var t := b[at];
      var next := at + 1;
      if t == 1 then (Boolean(true), next)
      else if t == 2 then (Boolean(false), next)
      else if t == 3 then var (raw, end) := ReadBytes(b, next, 4); (Int32(raw), end)
      else if t == 4 then var (raw, end) := ReadBytes(b, next, 8); (Int64(raw), end)
      else if t == 6 then var (raw, end) := ReadBytes(b, AlignUp(next, 8), 8); (Float64(raw), end)
      else if t == 5 || t == 7 then
        var (size, start) := ReadSize(b, next);
        var (raw, end) := ReadBytes(b, start, size);
        (Text(raw), end)
      else if t == 8 || t == 9 || t == 10 || t == 11 || t == 14 then ReadTyped(b, next, KindOf(t))
      else if t == 12 then
        var (count, start) := ReadSize(b, next);
        var (items, end) := ReadItems(b, start, count);
        (List(items), end)
      else if t == 13 then
        var (count, start) := ReadSize(b, next);
        var (entries, end) := ReadPairs(b, start, count, []);
        (Map(entries), end)
      else (Null, next)
  }

  function ReadItems(b: Bytes, at: nat, count: nat): (r: (seq<Value>, nat))
    ensures at <= r.1 && |r.0| == count
    decreases Rest(b, at), 1, count
  {
    if count == 0 then ([], at)
    else
      var (first, next) := ReadValue(b, at);
      var (others, end) := ReadItems(b, next, count - 1);
      ([first] + others, end)
  }

  function HasKey(entries: seq<Pair>, key: Value): bool {
    exists p :: p in entries && p.key == key
  }

  /** `emplace`: a key that is already there keeps its entry. */
  function Emplaced(entries: seq<Pair>, pair: Pair): seq<Pair> {
    if HasKey(entries, pair.key) then entries else entries + [pair]
  }

  function ReadPair(b: Bytes, at: nat): (r: (Pair, nat))
    ensures at <= r.1
    decreases Rest(b, at), 1, 0
  {
    var (key, middle) := ReadValue(b, at);
    var (value, next) := ReadValue(b, middle);
    (Pair(key, value), next)
  }

  function ReadPairs(b: Bytes, at: nat, count: nat, sofar: seq<Pair>): (r: (seq<Pair>, nat))
    ensures at <= r.1
    decreases Rest(b, at), 2, count
  {
    if count == 0 then (sofar, at)
    else
      var (pair, next) := ReadPair(b, at);
      ReadPairs(b, next, count - 1, Emplaced(sofar, pair))
  }

  /** One more item read. */
  lemma ItemsRead(b: Bytes, at: nat, count: nat)
    requires count > 0
    ensures var (first, next) := ReadValue(b, at);
            ReadItems(b, at, count) == ([first] + ReadItems(b, next, count - 1).0, ReadItems(b, next, count - 1).1)
  {}

  /** One more entry read: its key is known and it is dropped, or it is appended. */
  lemma PairsRead(b: Bytes, r: nat, count: nat, sofar: seq<Pair>)
    requires count > 0
    ensures var (pair, next) := ReadPair(b, r);
            ReadPairs(b, r, count, sofar)
            == ReadPairs(b, next, count - 1, if HasKey(sofar, pair.key) then sofar else sofar + [pair])
  {}
}
