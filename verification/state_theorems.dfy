/** Round trips of the state format, its older versions, and what it refuses. */
module StateTheorems {
  import opened Bytes
  import opened MlsGroup
  import opened StateFormat

  // ---------------------------------------------------------------- a chunk inside an input

  ghost predicate At(input: Bytes, at: nat, chunk: Bytes) {
    at + |chunk| <= |input| && input[at..at + |chunk|] == chunk
  }

  lemma AtSplit(input: Bytes, at: nat, a: Bytes, b: Bytes)
    requires At(input, at, a + b)
    ensures At(input, at, a) && At(input, at + |a|, b)
  {
    assert input[at..at + |a|] == input[at..at + |a + b|][..|a|];
    assert input[at + |a|..at + |a| + |b|] == input[at..at + |a + b|][|a|..];
  }

  lemma FieldAt(input: Bytes, at: nat, b: Bytes, max: nat)
    requires Fits(b) && |b| <= max && At(input, at, Field(b))
    ensures ReadBytes(input, at, max) == Done(b, at + |Field(b)|)
  {
    AtSplit(input, at, U32(|b|), b);
    U32RoundTrip(|b|);
  }

  lemma U64At(input: Bytes, at: nat, n: u64)
    requires At(input, at, U64(n))
    ensures ReadU64(input, at) == Done(n, at + 8)
  {
    U64RoundTrip(n);
  }

  lemma CountAt(input: Bytes, at: nat, n: nat, max: nat)
    requires n < U32_LIMIT && n <= max && At(input, at, U32(n))
    ensures ReadCount(input, at, max) == Done(n, at + 4)
  {
    U32RoundTrip(n);
  }

  // ---------------------------------------------------------------- one record

  /** Wherever the chunk stands in an input, the reader reads the entry and stops behind the chunk. */
  ghost predicate ReadsBack<T(!new)>(read: Reader<T>, chunk: Bytes, entry: Entry<T>) {
    forall input: Bytes, at: nat :: At(input, at, chunk) ==> read(input, at) == Done(entry, at + |chunk|)
  }

  lemma ValueReadsBack(key: Bytes, value: Bytes)
    requires ValueOk(key, value)
    ensures ReadsBack(ReadValue, ValueChunk(key, value), Entry(key, value))
  {
    var chunk := ValueChunk(key, value);
    forall input: Bytes, at: nat | At(input, at, chunk)
      ensures ReadValue(input, at) == Done(Entry(key, value), at + |chunk|)
    {
      AtSplit(input, at, Field(key), Field(value));
      FieldAt(input, at, key, MAX_STATE_BYTES);
      FieldAt(input, at + |Field(key)|, value, MAX_STATE_BYTES);
    }
  }

  /** Five byte strings that stand one behind the other. */
  lemma FiveAt(input: Bytes, at: nat, a: Bytes, b: Bytes, c: Bytes, d: Bytes, e: Bytes)
    requires At(input, at, a + (b + (c + (d + e))))
    ensures At(input, at, a) && At(input, at + |a|, b) && At(input, at + |a| + |b|, c)
    ensures At(input, at + |a| + |b| + |c|, d) && At(input, at + |a| + |b| + |c| + |d|, e)
  {
    AtSplit(input, at, a, b + (c + (d + e)));
    AtSplit(input, at + |a|, b, c + (d + e));
    AtSplit(input, at + |a| + |b|, c, d + e);
    AtSplit(input, at + |a| + |b| + |c|, d, e);
  }

  /** A field stands here and the next part behind it. */
  ghost predicate FieldFrom(input: Bytes, at: nat, b: Bytes, next: nat) {
    Fits(b) && At(input, at, Field(b)) && next == at + |Field(b)|
  }

  ghost predicate NumberFrom(input: Bytes, at: nat, n: u64, next: nat) {
    At(input, at, U64(n)) && next == at + 8
  }

  lemma FieldRead(input: Bytes, at: nat, b: Bytes, max: nat, next: nat)
    requires FieldFrom(input, at, b, next) && |b| <= max
    ensures ReadBytes(input, at, max) == Done(b, next)
  {
    FieldAt(input, at, b, max);
  }

  lemma NumberRead(input: Bytes, at: nat, n: u64, next: nat)
    requires NumberFrom(input, at, n, next)
    ensures ReadU64(input, at) == Done(n, next)
  {
    U64At(input, at, n);
  }

  /** The five parts of a receipt. */
  ghost predicate PendingParts(input: Bytes, at: nat, key: Bytes, a: Application, p: nat, q: nat, r: nat, end: nat) {
    && FieldFrom(input, at, key, p) && NumberFrom(input, p, a.epoch, p + 8) && FieldFrom(input, p + 8, a.credential, q)
    && FieldFrom(input, q, a.signatureKey, r) && FieldFrom(input, r, a.plaintext, end)
  }

  lemma PendingParted(input: Bytes, at: nat, key: Bytes, a: Application, p: nat, q: nat, r: nat, end: nat)
    requires PendingFits(key, a) && At(input, at, PendingChunk(key, a))
    requires p == at + |Field(key)| && q == p + 8 + |Field(a.credential)|
    requires r == q + |Field(a.signatureKey)| && end == r + |Field(a.plaintext)|
    ensures PendingParts(input, at, key, a, p, q, r, end) && end == at + |PendingChunk(key, a)|
  {
    FiveAt(input, at, Field(key), U64(a.epoch), Field(a.credential), Field(a.signatureKey), Field(a.plaintext));
  }

  /** The three fields of a receipt that tell its sender and its text. */
  lemma SenderFields(input: Bytes, key: Bytes, a: Application, p: nat, q: nat, r: nat, end: nat)
    requires PendingOk(key, a)
    requires ReadBytes(input, p, MAX_IDENTITY_BYTES) == Done(a.credential, q)
    requires ReadBytes(input, q, 32) == Done(a.signatureKey, r)
    requires ReadBytes(input, r, MAX_APPLICATION_BYTES) == Done(a.plaintext, end)
    ensures ReadSender(key, a.epoch, input, p) == Done(Entry(key, a), end)
  {}

  /** Behind the key and the epoch. */
  lemma PendingFrom(input: Bytes, at: nat, key: Bytes, epoch: u64, p: nat)
    requires ReadBytes(input, at, MAX_GROUP_ID_BYTES + 12) == Done(key, p)
    requires ReadU64(input, p) == Done(epoch, p + 8)
    ensures ReadPending(input, at) == ReadSender(key, epoch, input, p + 8)
  {}

  lemma PendingPartsRead(input: Bytes, at: nat, key: Bytes, a: Application, p: nat, q: nat, r: nat, end: nat)
    requires PendingOk(key, a) && PendingParts(input, at, key, a, p, q, r, end)
    ensures ReadPending(input, at) == Done(Entry(key, a), end)
  {
    FieldRead(input, at, key, MAX_GROUP_ID_BYTES + 12, p);
    NumberRead(input, p, a.epoch, p + 8);
    FieldRead(input, p + 8, a.credential, MAX_IDENTITY_BYTES, q);
    FieldRead(input, q, a.signatureKey, 32, r);
    FieldRead(input, r, a.plaintext, MAX_APPLICATION_BYTES, end);
    SenderFields(input, key, a, p + 8, q, r, end);
    PendingFrom(input, at, key, a.epoch, p);
  }

  lemma PendingAt(input: Bytes, at: nat, key: Bytes, a: Application)
    requires PendingOk(key, a) && At(input, at, PendingChunk(key, a))
    ensures ReadPending(input, at) == Done(Entry(key, a), at + |PendingChunk(key, a)|)
  {
    var p := at + |Field(key)|;
    var q := p + 8 + |Field(a.credential)|;
    var r := q + |Field(a.signatureKey)|;
    PendingParted(input, at, key, a, p, q, r, r + |Field(a.plaintext)|);
    PendingPartsRead(input, at, key, a, p, q, r, r + |Field(a.plaintext)|);
  }

  lemma PendingReadsBack(key: Bytes, a: Application)
    requires PendingOk(key, a)
    ensures ReadsBack(ReadPending, PendingChunk(key, a), Entry(key, a))
  {
    var chunk := PendingChunk(key, a);
    forall input: Bytes, at: nat | At(input, at, chunk)
      ensures ReadPending(input, at) == Done(Entry(key, a), at + |chunk|)
    {
      PendingAt(input, at, key, a);
    }
  }

  /** The five parts of an outgoing message. */
  ghost predicate OutgoingParts(input: Bytes, at: nat, o: Outgoing, p: nat, q: nat, r: nat, end: nat) {
    && FieldFrom(input, at, o.group, p) && FieldFrom(input, p, o.operation, q) && NumberFrom(input, q, o.epoch, q + 8)
    && FieldFrom(input, q + 8, o.plaintext, r) && FieldFrom(input, r, o.wire, end)
  }

  lemma OutgoingParted(input: Bytes, at: nat, o: Outgoing, p: nat, q: nat, r: nat, end: nat)
    requires OutgoingFits(o) && At(input, at, OutgoingChunk(o))
    requires p == at + |Field(o.group)| && q == p + |Field(o.operation)|
    requires r == q + 8 + |Field(o.plaintext)| && end == r + |Field(o.wire)|
    ensures OutgoingParts(input, at, o, p, q, r, end) && end == at + |OutgoingChunk(o)|
  {
    FiveAt(input, at, Field(o.group), Field(o.operation), U64(o.epoch), Field(o.plaintext), Field(o.wire));
  }

  /** The five fields of an outgoing message, read one after the other. */
  lemma OutgoingFields(input: Bytes, at: nat, o: Outgoing, p: nat, q: nat, r: nat, end: nat)
    requires OutgoingOk(o.operation, o)
    requires ReadBytes(input, at, MAX_GROUP_ID_BYTES) == Done(o.group, p)
    requires ReadBytes(input, p, OPERATION_ID_BYTES) == Done(o.operation, q)
    requires ReadU64(input, q) == Done(o.epoch, q + 8)
    requires ReadBytes(input, q + 8, MAX_APPLICATION_BYTES) == Done(o.plaintext, r)
    requires ReadBytes(input, r, MAX_WIRE_BYTES) == Done(o.wire, end)
    ensures ReadOutgoing(input, at) == Done(Entry(o.operation, o), end)
  {}

  lemma OutgoingPartsRead(input: Bytes, at: nat, o: Outgoing, p: nat, q: nat, r: nat, end: nat)
    requires OutgoingOk(o.operation, o) && OutgoingParts(input, at, o, p, q, r, end)
    ensures ReadOutgoing(input, at) == Done(Entry(o.operation, o), end)
  {
    FieldRead(input, at, o.group, MAX_GROUP_ID_BYTES, p);
    FieldRead(input, p, o.operation, OPERATION_ID_BYTES, q);
    NumberRead(input, q, o.epoch, q + 8);
    FieldRead(input, q + 8, o.plaintext, MAX_APPLICATION_BYTES, r);
    FieldRead(input, r, o.wire, MAX_WIRE_BYTES, end);
    OutgoingFields(input, at, o, p, q, r, end);
  }

  lemma OutgoingAt(input: Bytes, at: nat, o: Outgoing)
    requires OutgoingOk(o.operation, o) && At(input, at, OutgoingChunk(o))
    ensures ReadOutgoing(input, at) == Done(Entry(o.operation, o), at + |OutgoingChunk(o)|)
  {
    var p := at + |Field(o.group)|;
    var q := p + |Field(o.operation)|;
    var r := q + 8 + |Field(o.plaintext)|;
    OutgoingParted(input, at, o, p, q, r, r + |Field(o.wire)|);
    OutgoingPartsRead(input, at, o, p, q, r, r + |Field(o.wire)|);
  }

  lemma OutgoingReadsBack(o: Outgoing)
    requires OutgoingOk(o.operation, o)
    ensures ReadsBack(ReadOutgoing, OutgoingChunk(o), Entry(o.operation, o))
  {
    var chunk := OutgoingChunk(o);
    forall input: Bytes, at: nat | At(input, at, chunk)
      ensures ReadOutgoing(input, at) == Done(Entry(o.operation, o), at + |chunk|)
    {
      OutgoingAt(input, at, o);
    }
  }

  // ---------------------------------------------------------------- a section of records

  /** The first i records of a map in the order of its listed keys. */
  ghost function FirstOf<T>(m: map<Bytes, T>, keys: seq<Bytes>, i: nat): map<Bytes, T>
    requires Lists(keys, m.Keys) && i <= |keys|
  {
    if i == 0 then map[]
    else
      assert keys[i - 1] in keys;
      FirstOf(m, keys, i - 1)[keys[i - 1] := m[keys[i - 1]]]
  }

  /** The key is among the first i. */
  ghost predicate Among(keys: seq<Bytes>, i: nat, k: Bytes) {
    exists j: nat :: j < i <= |keys| && keys[j] == k
  }

  lemma {:induction false} FirstOfMeans<T>(m: map<Bytes, T>, keys: seq<Bytes>, i: nat, k: Bytes)
    requires Lists(keys, m.Keys) && i <= |keys|
    ensures k in FirstOf(m, keys, i) <==> Among(keys, i, k)
    ensures k in FirstOf(m, keys, i) ==> k in m && FirstOf(m, keys, i)[k] == m[k]
  {
    if i > 0 {
      assert keys[i - 1] in keys;
      FirstOfMeans(m, keys, i - 1, k);
      assert Among(keys, i - 1, k) ==> Among(keys, i, k);
    }
  }

  /** The next key is a new one. */
  lemma NextIsNew<T>(m: map<Bytes, T>, keys: seq<Bytes>, i: nat)
    requires Lists(keys, m.Keys) && i < |keys|
    ensures keys[i] in m && keys[i] !in FirstOf(m, keys, i)
    ensures FirstOf(m, keys, i + 1) == FirstOf(m, keys, i)[keys[i] := m[keys[i]]]
  {
    assert keys[i] in keys;
    FirstOfMeans(m, keys, i, keys[i]);
    LessIrreflexive(keys[i]);
  }

  lemma FirstOfAll<T>(m: map<Bytes, T>, keys: seq<Bytes>)
    requires Lists(keys, m.Keys)
    ensures FirstOf(m, keys, |keys|) == m
  {
    forall k: Bytes ensures k in FirstOf(m, keys, |keys|) <==> k in m {
      FirstOfMeans(m, keys, |keys|, k);
      assert k in m <==> k in keys;
    }
    forall k | k in m ensures FirstOf(m, keys, |keys|)[k] == m[k] {
      FirstOfMeans(m, keys, |keys|, k);
    }
  }

  ghost predicate AllReadBack<T(!new)>(read: Reader<T>, m: map<Bytes, T>, keys: seq<Bytes>, chunks: seq<Bytes>) {
    && |keys| == |chunks|
    && (forall i :: 0 <= i < |keys| ==> keys[i] in m && ReadsBack(read, chunks[i], Entry(keys[i], m[keys[i]])))
  }

  /** Reading the chunk takes a map of records to the next one. */
  ghost predicate Adds<T(!new)>(read: Reader<T>, chunk: Bytes, before: map<Bytes, T>, after: map<Bytes, T>) {
    forall input: Bytes, at: nat, count: nat :: At(input, at, chunk) && count > 0 ==>
      ReadSection(read, input, at, count, before) == ReadSection(read, input, at + |chunk|, count - 1, after)
  }

  lemma RecordAdds<T(!new)>(read: Reader<T>, chunk: Bytes, entry: Entry<T>, sofar: map<Bytes, T>)
    requires ReadsBack(read, chunk, entry) && entry.key !in sofar
    ensures Adds(read, chunk, sofar, sofar[entry.key := entry.record])
  {
    forall input: Bytes, at: nat, count: nat | At(input, at, chunk) && count > 0
      ensures ReadSection(read, input, at, count, sofar)
              == ReadSection(read, input, at + |chunk|, count - 1, sofar[entry.key := entry.record])
    {
      assert read(input, at) == Done(entry, at + |chunk|);
    }
  }

  /** The chunks from the i-th on. */
  ghost function ConcatFrom(chunks: seq<Bytes>, i: nat): Bytes
    decreases |chunks| - i
  {
    if i >= |chunks| then [] else chunks[i] + ConcatFrom(chunks, i + 1)
  }

  lemma {:induction false} ConcatFromIs(chunks: seq<Bytes>, i: nat)
    requires i <= |chunks|
    ensures ConcatFrom(chunks, i) == Concat(chunks[i..])
    decreases |chunks| - i
  {
    if i < |chunks| {
      ConcatFromIs(chunks, i + 1);
      var rest := chunks[i..];
      assert rest[0] == chunks[i] && rest[1..] == chunks[i + 1..];
    }
  }

  lemma ConcatWhole(chunks: seq<Bytes>)
    ensures ConcatFrom(chunks, 0) == Concat(chunks)
  {
    ConcatFromIs(chunks, 0);
    assert chunks[0..] == chunks;
  }

  lemma ConcatFromAt(input: Bytes, at: nat, chunks: seq<Bytes>, i: nat)
    requires i < |chunks| && At(input, at, ConcatFrom(chunks, i))
    ensures At(input, at, chunks[i]) && At(input, at + |chunks[i]|, ConcatFrom(chunks, i + 1))
    ensures |ConcatFrom(chunks, i)| == |chunks[i]| + |ConcatFrom(chunks, i + 1)|
  {
    AtSplit(input, at, chunks[i], ConcatFrom(chunks, i + 1));
  }

  ghost predicate AllAdd<T(!new)>(read: Reader<T>, chunks: seq<Bytes>, maps: seq<map<Bytes, T>>) {
    |maps| == |chunks| + 1 && forall i :: 0 <= i < |chunks| ==> Adds(read, chunks[i], maps[i], maps[i + 1])
  }

  /** From the i-th chunk on the reader comes to the last map, whatever stands around the chunks. */
  lemma {:induction false} ChunksReadBack<T(!new)>(
    read: Reader<T>, chunks: seq<Bytes>, maps: seq<map<Bytes, T>>, input: Bytes, at: nat, i: nat, left: nat)
    requires AllAdd(read, chunks, maps) && i + left == |chunks| && At(input, at, ConcatFrom(chunks, i))
    ensures ReadSection(read, input, at, left, maps[i]) == Done(maps[|chunks|], at + |ConcatFrom(chunks, i)|)
    decreases left
  {
    if left > 0 {
      ConcatFromAt(input, at, chunks, i);
      assert Adds(read, chunks[i], maps[i], maps[i + 1]);
      ChunksReadBack(read, chunks, maps, input, at + |chunks[i]|, i + 1, left - 1);
    }
  }

  /** The records of a map, one more at a time. */
  ghost function Growing<T>(m: map<Bytes, T>, keys: seq<Bytes>): (maps: seq<map<Bytes, T>>)
    requires Lists(keys, m.Keys)
    ensures |maps| == |keys| + 1 && forall i :: 0 <= i <= |keys| ==> maps[i] == FirstOf(m, keys, i)
  {
    seq(|keys| + 1, i requires 0 <= i < |keys| + 1 => FirstOf(m, keys, i))
  }

  lemma RecordReadBack<T(!new)>(read: Reader<T>, m: map<Bytes, T>, keys: seq<Bytes>, chunks: seq<Bytes>, i: nat)
    requires Lists(keys, m.Keys) && AllReadBack(read, m, keys, chunks) && i < |keys|
    ensures Adds(read, chunks[i], FirstOf(m, keys, i), FirstOf(m, keys, i + 1))
  {
    NextIsNew(m, keys, i);
    RecordAdds(read, chunks[i], Entry(keys[i], m[keys[i]]), FirstOf(m, keys, i));
  }

  /** Reading the chunks of a map back gives the map, whatever stands around them. */
  lemma SectionReadsBack<T(!new)>(
    read: Reader<T>, m: map<Bytes, T>, keys: seq<Bytes>, chunks: seq<Bytes>, input: Bytes, at: nat)
    requires Lists(keys, m.Keys) && AllReadBack(read, m, keys, chunks) && At(input, at, Concat(chunks))
    ensures ReadSection(read, input, at, |keys|, map[]) == Done(m, at + |Concat(chunks)|)
  {
    var maps := Growing(m, keys);
    forall i | 0 <= i < |chunks| ensures Adds(read, chunks[i], maps[i], maps[i + 1]) {
      RecordReadBack(read, m, keys, chunks, i);
    }
    ConcatWhole(chunks);
    ChunksReadBack(read, chunks, maps, input, at, 0, |chunks|);
    FirstOfAll(m, keys);
  }

  /** The chunks of a whole map, written in key order, read back as that map. */
  lemma MapReadsBack<T(!new)>(read: Reader<T>, m: map<Bytes, T>, chunks: seq<Bytes>, input: Bytes, at: nat)
    requires AllReadBack(read, m, SortedList(m.Keys), chunks)
    requires At(input, at, Concat(chunks))
    ensures ReadSection(read, input, at, |m|, map[]) == Done(m, at + |Concat(chunks)|)
  {
    var keys := SortedList(m.Keys);
    ListsCount(keys, m.Keys);
    SectionReadsBack(read, m, keys, chunks, input, at);
  }

  lemma ValueChunksReadBack(m: map<Bytes, Bytes>)
    requires ValuesFit(m) && ValuesOk(m)
    ensures AllReadBack(ReadValue, m, SortedList(m.Keys), ValueChunks(m))
  {
    var keys := SortedList(m.Keys);
    forall i | 0 <= i < |keys|
      ensures keys[i] in m && ReadsBack(ReadValue, ValueChunks(m)[i], Entry(keys[i], m[keys[i]]))
    {
      ValueReadsBack(keys[i], m[keys[i]]);
    }
  }

  lemma PendingChunksReadBack(m: map<Bytes, Application>)
    requires PendingsFit(m) && PendingsOk(m)
    ensures AllReadBack(ReadPending, m, SortedList(m.Keys), PendingChunks(m))
  {
    var keys := SortedList(m.Keys);
    forall i | 0 <= i < |keys|
      ensures keys[i] in m && ReadsBack(ReadPending, PendingChunks(m)[i], Entry(keys[i], m[keys[i]]))
    {
      PendingReadsBack(keys[i], m[keys[i]]);
    }
  }

  lemma OutgoingChunksReadBack(m: map<Bytes, Outgoing>)
    requires OutgoingsFit(m) && OutgoingsOk(m)
    ensures AllReadBack(ReadOutgoing, m, SortedList(m.Keys), OutgoingChunks(m))
  {
    var keys := SortedList(m.Keys);
    forall i | 0 <= i < |keys|
      ensures keys[i] in m && ReadsBack(ReadOutgoing, OutgoingChunks(m)[i], Entry(keys[i], m[keys[i]]))
    {
      OutgoingReadsBack(m[keys[i]]);
    }
  }

  /** A count followed by that many records. */
  lemma SectionAt<T(!new)>(
    read: Reader<T>, m: map<Bytes, T>, chunks: seq<Bytes>, max: nat, section: Bytes, input: Bytes, at: nat)
    requires |m| <= max && |m| < U32_LIMIT && AllReadBack(read, m, SortedList(m.Keys), chunks)
    requires section == U32(|m|) + Concat(chunks) && At(input, at, section)
    ensures ReadCount(input, at, max) == Done(|m|, at + 4)
    ensures ReadSection(read, input, at + 4, |m|, map[]) == Done(m, at + |section|)
  {
    AtSplit(input, at, U32(|m|), Concat(chunks));
    CountAt(input, at, |m|, max);
    MapReadsBack(read, m, chunks, input, at + 4);
  }

  ghost function ReadValueSection(input: Bytes, at: nat): Parsed<map<Bytes, Bytes>> {
    var (count, next) :- ReadCount(input, at, MAX_STATE_ENTRIES);
    ReadSection(ReadValue, input, next, count, map[])
  }

  lemma ValuesAt(m: map<Bytes, Bytes>, input: Bytes, at: nat)
    requires ValuesFit(m) && ValuesOk(m) && At(input, at, ValueSection(m))
    ensures ReadValueSection(input, at) == Done(m, at + |ValueSection(m)|)
  {
    ValueChunksReadBack(m);
    SectionAt(ReadValue, m, ValueChunks(m), MAX_STATE_ENTRIES, ValueSection(m), input, at);
  }

  lemma PendingsAt(m: map<Bytes, Application>, input: Bytes, at: nat, version: nat)
    requires PendingsFit(m) && PendingsOk(m) && version >= 2 && At(input, at, PendingSection(m))
    ensures ReadPendingSection(version, input, at) == Done(m, at + |PendingSection(m)|)
  {
    PendingChunksReadBack(m);
    SectionAt(ReadPending, m, PendingChunks(m), MAX_PENDING_APPLICATIONS, PendingSection(m), input, at);
  }

  lemma OutgoingsAt(m: map<Bytes, Outgoing>, input: Bytes, at: nat, version: nat)
    requires OutgoingsFit(m) && OutgoingsOk(m) && version >= 3 && At(input, at, OutgoingSection(m))
    ensures ReadOutgoingSection(version, input, at) == Done(m, at + |OutgoingSection(m)|)
  {
    OutgoingChunksReadBack(m);
    SectionAt(ReadOutgoing, m, OutgoingChunks(m), MAX_PENDING_OUTGOING, OutgoingSection(m), input, at);
  }

  // ---------------------------------------------------------------- the whole state

  /** What a version keeps of a state: version 1 has no receipts, version 2 no outgoing messages. */
  function Kept(version: nat, s: DeviceState): DeviceState {
    s.(pending := if version >= 2 then s.pending else map[],
       outgoing := if version >= 3 then s.outgoing else map[])
  }

  lemma VersionOfEncoding(version: nat, rest: Bytes)
    requires 1 <= version <= 3
    ensures Version(Magic(version) + rest) == version
  {
    var input := Magic(version) + rest;
    assert input[7] == 0x30 + version;
    assert forall v :: 1 <= v <= 3 && Magic(v) <= input ==> Magic(v)[7] == input[7];
    assert Magic(version) <= input;
  }

  lemma HeaderAt(version: nat, identity: Bytes, publicKey: Bytes, input: Bytes)
    requires 1 <= version <= 3 && Bounded(identity, MAX_IDENTITY_BYTES) && |publicKey| == 32
    requires At(input, 0, Header(version, identity, publicKey))
    ensures Version(input) == version
    ensures ReadBytes(input, 8, MAX_IDENTITY_BYTES) == Done(identity, 8 + |Field(identity)|)
    ensures ReadBytes(input, 8 + |Field(identity)|, MAX_PUBLIC_KEY_FIELD)
            == Done(publicKey, |Header(version, identity, publicKey)|)
  {
    AtSplit(input, 0, Magic(version), Field(identity) + Field(publicKey));
    assert input == Magic(version) + input[8..];
    VersionOfEncoding(version, input[8..]);
    AtSplit(input, 8, Field(identity), Field(publicKey));
    FieldAt(input, 8, identity, MAX_IDENTITY_BYTES);
    FieldAt(input, 8 + |Field(identity)|, publicKey, MAX_PUBLIC_KEY_FIELD);
  }

  lemma Layout(a: Bytes, b: Bytes, c: Bytes, d: Bytes, input: Bytes)
    requires input == a + (b + (c + d))
    ensures At(input, 0, a) && At(input, |a|, b) && At(input, |a| + |b|, c) && At(input, |a| + |b| + |c|, d)
    ensures |input| == |a| + |b| + |c| + |d|
  {}

  /** The four parts of a plaintext, each standing where the previous one ends. */
  ghost predicate Placed(version: nat, s: DeviceState, input: Bytes, a: nat, b: nat, c: nat, d: nat)
    requires 1 <= version <= 3 && Writable(s)
  {
    && a == |Header(version, s.identity, s.publicKey)| && At(input, 0, Header(version, s.identity, s.publicKey))
    && b == a + |ValueSection(s.values)| && At(input, a, ValueSection(s.values))
    && (if version >= 2 then c == b + |PendingSection(s.pending)| && At(input, b, PendingSection(s.pending)) else c == b)
    && (if version >= 3 then d == c + |OutgoingSection(s.outgoing)| && At(input, c, OutgoingSection(s.outgoing)) else d == c)
  }

  lemma HeaderPart(version: nat, s: DeviceState, input: Bytes, a: nat, b: nat, c: nat, d: nat)
    requires 1 <= version <= 3 && WellFormed(s) && Writable(s) && Placed(version, s, input, a, b, c, d)
    ensures Version(input) == version
    ensures ReadBytes(input, 8, MAX_IDENTITY_BYTES) == Done(s.identity, 8 + |Field(s.identity)|)
    ensures ReadBytes(input, 8 + |Field(s.identity)|, MAX_PUBLIC_KEY_FIELD) == Done(s.publicKey, a)
  {
    HeaderAt(version, s.identity, s.publicKey, input);
  }

  lemma ValuesPart(version: nat, s: DeviceState, input: Bytes, a: nat, b: nat, c: nat, d: nat)
    requires 1 <= version <= 3 && WellFormed(s) && Writable(s) && Placed(version, s, input, a, b, c, d)
    ensures ReadValueSection(input, a) == Done(s.values, b)
  {
    ValuesAt(s.values, input, a);
  }

  lemma PendingPart(version: nat, s: DeviceState, input: Bytes, a: nat, b: nat, c: nat, d: nat)
    requires 1 <= version <= 3 && WellFormed(s) && Writable(s) && Placed(version, s, input, a, b, c, d)
    ensures ReadPendingSection(version, input, b) == Done(Kept(version, s).pending, c)
  {
    if version >= 2 {
      PendingsAt(s.pending, input, b, version);
    }
  }

  lemma OutgoingPart(version: nat, s: DeviceState, input: Bytes, a: nat, b: nat, c: nat, d: nat)
    requires 1 <= version <= 3 && WellFormed(s) && Writable(s) && Placed(version, s, input, a, b, c, d)
    ensures ReadOutgoingSection(version, input, c) == Done(Kept(version, s).outgoing, d)
  {
    if version >= 3 {
      OutgoingsAt(s.outgoing, input, c, version);
    }
  }

  /** What the reader finds part by part. */
  ghost predicate PartsRead(version: nat, s: DeviceState, input: Bytes, a: nat, b: nat, c: nat, d: nat) {
    && Fits(s.identity)
    && ReadBytes(input, 8, MAX_IDENTITY_BYTES) == Done(s.identity, 8 + |Field(s.identity)|)
    && ReadBytes(input, 8 + |Field(s.identity)|, MAX_PUBLIC_KEY_FIELD) == Done(s.publicKey, a)
    && ReadValueSection(input, a) == Done(s.values, b)
    && ReadPendingSection(version, input, b) == Done(Kept(version, s).pending, c)
    && ReadOutgoingSection(version, input, c) == Done(Kept(version, s).outgoing, d)
  }

  lemma PlacedIsRead(version: nat, s: DeviceState, input: Bytes, a: nat, b: nat, c: nat, d: nat)
    requires 1 <= version <= 3 && WellFormed(s) && Writable(s) && Placed(version, s, input, a, b, c, d)
    ensures Version(input) == version && PartsRead(version, s, input, a, b, c, d)
  {
    HeaderPart(version, s, input, a, b, c, d);
    ValuesPart(version, s, input, a, b, c, d);
    PendingPart(version, s, input, a, b, c, d);
    OutgoingPart(version, s, input, a, b, c, d);
  }

  /** The reader walks through the four parts of a plaintext one after the other. */
  lemma ReadParts(version: nat, s: DeviceState, input: Bytes, a: nat, b: nat, c: nat, d: nat)
    requires Version(input) == version && 1 <= version <= 3 && s.identity != [] && |s.publicKey| == 32
    requires PartsRead(version, s, input, a, b, c, d)
    ensures ReadState(input) == Done(Kept(version, s), d)
  {}

  lemma EncodingIsPlaced(version: nat, s: DeviceState) returns (a: nat, b: nat, c: nat)
    requires 1 <= version <= 3 && Writable(s)
    ensures Placed(version, s, Encode(version, s), a, b, c, |Encode(version, s)|)
  {
    var header, values := Header(version, s.identity, s.publicKey), ValueSection(s.values);
    var pendings := if version >= 2 then PendingSection(s.pending) else [];
    var outgoings := if version >= 3 then OutgoingSection(s.outgoing) else [];
    Layout(header, values, pendings, outgoings, Encode(version, s));
    a, b, c := |header|, |header| + |values|, |header| + |values| + |pendings|;
  }

  /**
   Round trip: decoding what was written for a well-formed state gives the state back, in all
   three versions of the format; the older ones come back with their missing maps empty.
   */
  lemma RoundTrip(version: nat, s: DeviceState)
    requires 1 <= version <= 3 && WellFormed(s) && Writable(s)
    ensures Decode(Encode(version, s)) == Ok(Kept(version, s))
  {
    var input := Encode(version, s);
    var a, b, c := EncodingIsPlaced(version, s);
    PlacedIsRead(version, s, input, a, b, c, |input|);
    ReadParts(version, s, input, a, b, c, |input|);
  }
}
