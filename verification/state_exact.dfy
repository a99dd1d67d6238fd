/**
 Which exported plaintexts are read back: exactly those of well-formed states. What was written
 for any other state is refused, never read as a different state.
 */
module StateExact {
  import opened Bytes
  import opened MlsGroup
  import opened StateFormat
  import opened StateTheorems
  import opened StateRefusals

  // ---------------------------------------------------------------- one record

  /** Wherever the chunk stands in an input, the reader fails or reads the entry and stops behind the chunk. */
  ghost predicate ReadsOnly<T(!new)>(read: Reader<T>, chunk: Bytes, entry: Entry<T>) {
    forall input: Bytes, at: nat ::
      At(input, at, chunk) && read(input, at).Done? ==> read(input, at) == Done(entry, at + |chunk|)
  }

  /** A field is read back if it is within the limit of the reader, and refused otherwise. */
  lemma FieldOnly(input: Bytes, at: nat, b: Bytes, max: nat)
    requires Fits(b) && At(input, at, Field(b))
    ensures ReadBytes(input, at, max) == if |b| <= max then Done(b, at + |Field(b)|) else Fail(InvalidWireMessage)
  {
    AtSplit(input, at, U32(|b|), b);
    U32RoundTrip(|b|);
  }

  lemma ValueReadsOnly(key: Bytes, value: Bytes)
    requires ValueFits(key, value)
    ensures ReadsOnly(ReadValue, ValueChunk(key, value), Entry(key, value))
  {
    var chunk := ValueChunk(key, value);
    forall input: Bytes, at: nat | At(input, at, chunk) && ReadValue(input, at).Done?
      ensures ReadValue(input, at) == Done(Entry(key, value), at + |chunk|)
    {
      AtSplit(input, at, Field(key), Field(value));
      FieldOnly(input, at, key, MAX_STATE_BYTES);
      FieldOnly(input, at + |Field(key)|, value, MAX_STATE_BYTES);
    }
  }

  /** What a reader makes of a field written at a position: itself, or a refusal. */
  ghost predicate Answers(input: Bytes, at: nat, max: nat, b: Bytes, next: nat) {
    ReadBytes(input, at, max) == if |b| <= max then Done(b, next) else Fail(InvalidWireMessage)
  }

  /** The four byte strings of a receipt, one behind the other. */
  ghost predicate PendingAnswers(input: Bytes, at: nat, key: Bytes, a: Application, p: nat, q: nat, r: nat, end: nat) {
    && Answers(input, at, MAX_GROUP_ID_BYTES + 12, key, p) && Answers(input, p + 8, MAX_IDENTITY_BYTES, a.credential, q)
    && Answers(input, q, 32, a.signatureKey, r) && Answers(input, r, MAX_APPLICATION_BYTES, a.plaintext, end)
  }

  lemma FieldAnswered(input: Bytes, at: nat, b: Bytes, max: nat, next: nat)
    requires FieldFrom(input, at, b, next)
    ensures Answers(input, at, max, b, next)
  {
    FieldOnly(input, at, b, max);
  }

  lemma PendingAnswered(input: Bytes, at: nat, key: Bytes, a: Application, p: nat, q: nat, r: nat, end: nat)
    requires PendingParts(input, at, key, a, p, q, r, end)
    ensures PendingAnswers(input, at, key, a, p, q, r, end)
  {
    FieldAnswered(input, at, key, MAX_GROUP_ID_BYTES + 12, p);
    FieldAnswered(input, p + 8, a.credential, MAX_IDENTITY_BYTES, q);
    FieldAnswered(input, q, a.signatureKey, 32, r);
    FieldAnswered(input, r, a.plaintext, MAX_APPLICATION_BYTES, end);
  }

  /** A failed field fails the receipt. */
  lemma PendingDoneFields(input: Bytes, at: nat, key: Bytes, a: Application, p: nat, q: nat, r: nat, end: nat)
    requires ReadPending(input, at).Done? && PendingAnswers(input, at, key, a, p, q, r, end)
    ensures PendingOk(key, a)
  {}

  /** The limits of the five fields decide whether a receipt is read. */
  lemma PendingDone(input: Bytes, at: nat, key: Bytes, a: Application)
    requires PendingFits(key, a) && At(input, at, PendingChunk(key, a)) && ReadPending(input, at).Done?
    ensures PendingOk(key, a)
  {
    var p := at + |Field(key)|;
    var q := p + 8 + |Field(a.credential)|;
    var r := q + |Field(a.signatureKey)|;
    PendingParted(input, at, key, a, p, q, r, r + |Field(a.plaintext)|);
    PendingAnswered(input, at, key, a, p, q, r, r + |Field(a.plaintext)|);
    PendingDoneFields(input, at, key, a, p, q, r, r + |Field(a.plaintext)|);
  }

  lemma PendingReadsOnly(key: Bytes, a: Application)
    requires PendingFits(key, a)
    ensures ReadsOnly(ReadPending, PendingChunk(key, a), Entry(key, a))
  {
    var chunk := PendingChunk(key, a);
    forall input: Bytes, at: nat | At(input, at, chunk) && ReadPending(input, at).Done?
      ensures ReadPending(input, at) == Done(Entry(key, a), at + |chunk|)
    {
      PendingDone(input, at, key, a);
      PendingAt(input, at, key, a);
    }
  }

  /** The four byte strings of an outgoing message, one behind the other. */
  ghost predicate OutgoingAnswers(input: Bytes, at: nat, o: Outgoing, p: nat, q: nat, r: nat, end: nat) {
    && Answers(input, at, MAX_GROUP_ID_BYTES, o.group, p) && Answers(input, p, OPERATION_ID_BYTES, o.operation, q)
    && Answers(input, q + 8, MAX_APPLICATION_BYTES, o.plaintext, r) && Answers(input, r, MAX_WIRE_BYTES, o.wire, end)
  }

  lemma OutgoingAnswered(input: Bytes, at: nat, o: Outgoing, p: nat, q: nat, r: nat, end: nat)
    requires OutgoingParts(input, at, o, p, q, r, end)
    ensures OutgoingAnswers(input, at, o, p, q, r, end)
  {
    FieldAnswered(input, at, o.group, MAX_GROUP_ID_BYTES, p);
    FieldAnswered(input, p, o.operation, OPERATION_ID_BYTES, q);
    FieldAnswered(input, q + 8, o.plaintext, MAX_APPLICATION_BYTES, r);
    FieldAnswered(input, r, o.wire, MAX_WIRE_BYTES, end);
  }

  lemma OutgoingDoneFields(input: Bytes, at: nat, o: Outgoing, p: nat, q: nat, r: nat, end: nat)
    requires ReadOutgoing(input, at).Done? && OutgoingAnswers(input, at, o, p, q, r, end)
    ensures OutgoingOk(o.operation, o)
  {}

  lemma OutgoingDone(input: Bytes, at: nat, o: Outgoing)
    requires OutgoingFits(o) && At(input, at, OutgoingChunk(o)) && ReadOutgoing(input, at).Done?
    ensures OutgoingOk(o.operation, o)
  {
    var p := at + |Field(o.group)|;
    var q := p + |Field(o.operation)|;
    var r := q + 8 + |Field(o.plaintext)|;
    OutgoingParted(input, at, o, p, q, r, r + |Field(o.wire)|);
    OutgoingAnswered(input, at, o, p, q, r, r + |Field(o.wire)|);
    OutgoingDoneFields(input, at, o, p, q, r, r + |Field(o.wire)|);
  }

  lemma OutgoingReadsOnly(o: Outgoing)
    requires OutgoingFits(o)
    ensures ReadsOnly(ReadOutgoing, OutgoingChunk(o), Entry(o.operation, o))
  {
    var chunk := OutgoingChunk(o);
    forall input: Bytes, at: nat | At(input, at, chunk) && ReadOutgoing(input, at).Done?
      ensures ReadOutgoing(input, at) == Done(Entry(o.operation, o), at + |chunk|)
    {
      OutgoingDone(input, at, o);
      OutgoingAt(input, at, o);
    }
  }

  // ---------------------------------------------------------------- a section of records

  ghost predicate AllReadOnly<T(!new)>(read: Reader<T>, m: map<Bytes, T>, keys: seq<Bytes>, chunks: seq<Bytes>) {
    && |keys| == |chunks|
    && (forall i :: 0 <= i < |keys| ==> keys[i] in m && ReadsOnly(read, chunks[i], Entry(keys[i], m[keys[i]])))
  }

  /** A result that is a failure or this map, read up to this position. */
  ghost predicate Only<T(!new)>(r: Parsed<map<Bytes, T>>, m: map<Bytes, T>, end: nat) {
    r.Done? ==> r == Done(m, end)
  }

  /** Reading the chunk fails, or takes a map of records to the next one. */
  ghost predicate AddsOnly<T(!new)>(read: Reader<T>, chunk: Bytes, before: map<Bytes, T>, after: map<Bytes, T>) {
    forall input: Bytes, at: nat, count: nat ::
      At(input, at, chunk) && count > 0 && ReadSection(read, input, at, count, before).Done? ==>
        ReadSection(read, input, at, count, before) == ReadSection(read, input, at + |chunk|, count - 1, after)
  }

  lemma RecordAddsOnly<T(!new)>(read: Reader<T>, chunk: Bytes, entry: Entry<T>, sofar: map<Bytes, T>)
    requires ReadsOnly(read, chunk, entry)
    ensures AddsOnly(read, chunk, sofar, sofar[entry.key := entry.record])
  {
    forall input: Bytes, at: nat, count: nat
      | At(input, at, chunk) && count > 0 && ReadSection(read, input, at, count, sofar).Done?
      ensures ReadSection(read, input, at, count, sofar)
              == ReadSection(read, input, at + |chunk|, count - 1, sofar[entry.key := entry.record])
    {
      assert read(input, at).Done? ==> read(input, at) == Done(entry, at + |chunk|);
    }
  }

  ghost predicate AllAddOnly<T(!new)>(read: Reader<T>, chunks: seq<Bytes>, maps: seq<map<Bytes, T>>) {
    |maps| == |chunks| + 1 && forall i :: 0 <= i < |chunks| ==> AddsOnly(read, chunks[i], maps[i], maps[i + 1])
  }

  lemma {:induction false} ChunksReadOnly<T(!new)>(
    read: Reader<T>, chunks: seq<Bytes>, maps: seq<map<Bytes, T>>, input: Bytes, at: nat, i: nat, left: nat)
    requires AllAddOnly(read, chunks, maps) && i + left == |chunks| && At(input, at, ConcatFrom(chunks, i))
    ensures Only(ReadSection(read, input, at, left, maps[i]), maps[|chunks|], at + |ConcatFrom(chunks, i)|)
    decreases left
  {
    if left > 0 {
      ConcatFromAt(input, at, chunks, i);
      assert AddsOnly(read, chunks[i], maps[i], maps[i + 1]);
      ChunksReadOnly(read, chunks, maps, input, at + |chunks[i]|, i + 1, left - 1);
    }
  }

  lemma RecordReadOnly<T(!new)>(read: Reader<T>, m: map<Bytes, T>, keys: seq<Bytes>, chunks: seq<Bytes>, i: nat)
    requires Lists(keys, m.Keys) && AllReadOnly(read, m, keys, chunks) && i < |keys|
    ensures AddsOnly(read, chunks[i], FirstOf(m, keys, i), FirstOf(m, keys, i + 1))
  {
    NextIsNew(m, keys, i);
    RecordAddsOnly(read, chunks[i], Entry(keys[i], m[keys[i]]), FirstOf(m, keys, i));
  }

  /** Reading the chunks of any map gives that map or fails. */
  lemma SectionReadsOnly<T(!new)>(
    read: Reader<T>, m: map<Bytes, T>, keys: seq<Bytes>, chunks: seq<Bytes>, input: Bytes, at: nat)
    requires Lists(keys, m.Keys) && AllReadOnly(read, m, keys, chunks) && At(input, at, Concat(chunks))
    ensures Only(ReadSection(read, input, at, |keys|, map[]), m, at + |Concat(chunks)|)
  {
    var maps := Growing(m, keys);
    forall i | 0 <= i < |chunks| ensures AddsOnly(read, chunks[i], maps[i], maps[i + 1]) {
      RecordReadOnly(read, m, keys, chunks, i);
    }
    ConcatWhole(chunks);
    ChunksReadOnly(read, chunks, maps, input, at, 0, |chunks|);
    FirstOfAll(m, keys);
  }

  lemma CountOnly(input: Bytes, at: nat, n: nat, max: nat)
    requires n < U32_LIMIT && At(input, at, U32(n)) && ReadCount(input, at, max).Done?
    ensures ReadCount(input, at, max) == Done(n, at + 4)
  {
    U32RoundTrip(n);
  }

  /** A count and the chunks of a map: whoever reads a section here reads that map. */
  lemma SectionOnly<T(!new)>(
    read: Reader<T>, m: map<Bytes, T>, chunks: seq<Bytes>, max: nat, section: Bytes, input: Bytes, at: nat)
    requires |m| < U32_LIMIT && AllReadOnly(read, m, SortedList(m.Keys), chunks)
    requires section == U32(|m|) + Concat(chunks) && At(input, at, section)
    requires CountedSection(read, input, at, max).Done?
    ensures CountedSection(read, input, at, max) == Done(m, at + |section|)
  {
    AtSplit(input, at, U32(|m|), Concat(chunks));
    CountOnly(input, at, |m|, max);
    var keys := SortedList(m.Keys);
    ListsCount(keys, m.Keys);
    SectionReadsOnly(read, m, keys, chunks, input, at + 4);
  }

  lemma ValuesOnly(m: map<Bytes, Bytes>, input: Bytes, at: nat)
    requires ValuesFit(m) && At(input, at, ValueSection(m)) && ReadValueSection(input, at).Done?
    ensures ReadValueSection(input, at) == Done(m, at + |ValueSection(m)|)
  {
    var keys := SortedList(m.Keys);
    forall i | 0 <= i < |keys|
      ensures keys[i] in m && ReadsOnly(ReadValue, ValueChunks(m)[i], Entry(keys[i], m[keys[i]]))
    {
      ValueReadsOnly(keys[i], m[keys[i]]);
    }
    SectionOnly(ReadValue, m, ValueChunks(m), MAX_STATE_ENTRIES, ValueSection(m), input, at);
  }

  lemma PendingsOnly(m: map<Bytes, Application>, input: Bytes, at: nat)
    requires PendingsFit(m) && At(input, at, PendingSection(m)) && ReadPendingSection(3, input, at).Done?
    ensures ReadPendingSection(3, input, at) == Done(m, at + |PendingSection(m)|)
  {
    var keys := SortedList(m.Keys);
    forall i | 0 <= i < |keys|
      ensures keys[i] in m && ReadsOnly(ReadPending, PendingChunks(m)[i], Entry(keys[i], m[keys[i]]))
    {
      PendingReadsOnly(keys[i], m[keys[i]]);
    }
    SectionOnly(ReadPending, m, PendingChunks(m), MAX_PENDING_APPLICATIONS, PendingSection(m), input, at);
  }

  /** Outgoing messages are kept under their operation ids. */
  ghost predicate Keyed(m: map<Bytes, Outgoing>) {
    forall k :: k in m ==> m[k].operation == k
  }

  lemma OutgoingsOnly(m: map<Bytes, Outgoing>, input: Bytes, at: nat)
    requires Keyed(m) && OutgoingsFit(m) && At(input, at, OutgoingSection(m)) && ReadOutgoingSection(3, input, at).Done?
    ensures ReadOutgoingSection(3, input, at) == Done(m, at + |OutgoingSection(m)|)
  {
    var keys := SortedList(m.Keys);
    forall i | 0 <= i < |keys|
      ensures keys[i] in m && ReadsOnly(ReadOutgoing, OutgoingChunks(m)[i], Entry(keys[i], m[keys[i]]))
    {
      OutgoingReadsOnly(m[keys[i]]);
    }
    SectionOnly(ReadOutgoing, m, OutgoingChunks(m), MAX_PENDING_OUTGOING, OutgoingSection(m), input, at);
  }

  // ---------------------------------------------------------------- the whole state

  lemma HeaderOnly(identity: Bytes, publicKey: Bytes, input: Bytes)
    requires Fits(identity) && Fits(publicKey) && At(input, 0, Header(3, identity, publicKey))
    ensures Version(input) == 3
    ensures ReadBytes(input, 8, MAX_IDENTITY_BYTES).Done? ==>
              ReadBytes(input, 8, MAX_IDENTITY_BYTES) == Done(identity, 8 + |Field(identity)|)
    ensures ReadBytes(input, 8 + |Field(identity)|, MAX_PUBLIC_KEY_FIELD).Done? ==>
              ReadBytes(input, 8 + |Field(identity)|, MAX_PUBLIC_KEY_FIELD)
              == Done(publicKey, |Header(3, identity, publicKey)|)
  {
    AtSplit(input, 0, Magic(3), Field(identity) + Field(publicKey));
    assert input == Magic(3) + input[8..];
    VersionOfEncoding(3, input[8..]);
    AtSplit(input, 8, Field(identity), Field(publicKey));
    FieldOnly(input, 8, identity, MAX_IDENTITY_BYTES);
    FieldOnly(input, 8 + |Field(identity)|, publicKey, MAX_PUBLIC_KEY_FIELD);
  }

  /** Behind the public key the three maps follow, and whoever reads them reads the maps of the state. */
  lemma MapsOnly(s: DeviceState, input: Bytes, a: nat, b: nat, c: nat, d: nat)
    requires Writable(s) && Keyed(s.outgoing) && Placed(3, s, input, a, b, c, d)
    ensures ReadValueSection(input, a).Done? ==> ReadValueSection(input, a) == Done(s.values, b)
    ensures ReadPendingSection(3, input, b).Done? ==> ReadPendingSection(3, input, b) == Done(s.pending, c)
    ensures ReadOutgoingSection(3, input, c).Done? ==> ReadOutgoingSection(3, input, c) == Done(s.outgoing, d)
  {
    if ReadValueSection(input, a).Done? {
      ValuesOnly(s.values, input, a);
    }
    if ReadPendingSection(3, input, b).Done? {
      PendingsOnly(s.pending, input, b);
    }
    if ReadOutgoingSection(3, input, c).Done? {
      OutgoingsOnly(s.outgoing, input, c);
    }
  }

  /** What stands at the four places of a plaintext is all a reader can find there. */
  ghost predicate OnlyParts(s: DeviceState, input: Bytes, p: nat, a: nat, b: nat, c: nat, d: nat) {
    && Version(input) == 3
    && (ReadBytes(input, 8, MAX_IDENTITY_BYTES).Done? ==> ReadBytes(input, 8, MAX_IDENTITY_BYTES) == Done(s.identity, p))
    && (ReadBytes(input, p, MAX_PUBLIC_KEY_FIELD).Done? ==> ReadBytes(input, p, MAX_PUBLIC_KEY_FIELD) == Done(s.publicKey, a))
    && (ReadValueSection(input, a).Done? ==> ReadValueSection(input, a) == Done(s.values, b))
    && (ReadPendingSection(3, input, b).Done? ==> ReadPendingSection(3, input, b) == Done(s.pending, c))
    && (ReadOutgoingSection(3, input, c).Done? ==> ReadOutgoingSection(3, input, c) == Done(s.outgoing, d))
  }

  lemma OnlyPartsRead(s: DeviceState, input: Bytes, p: nat, a: nat, b: nat, c: nat, d: nat)
    requires OnlyParts(s, input, p, a, b, c, d) && ReadState(input).Done?
    ensures ReadState(input) == Done(s, d)
  {
    var t, q, ta, tb, tc, td := ReadStateParts(input);
  }

  lemma EncodingOnlyParts(s: DeviceState) returns (p: nat, a: nat, b: nat, c: nat)
    requires Writable(s) && Keyed(s.outgoing)
    ensures OnlyParts(s, Encode(3, s), p, a, b, c, |Encode(3, s)|)
  {
    var input := Encode(3, s);
    a, b, c := EncodingIsPlaced(3, s);
    p := 8 + |Field(s.identity)|;
    HeaderOnly(s.identity, s.publicKey, input);
    MapsOnly(s, input, a, b, c, |input|);
  }

  /** Whoever reads the plaintext of a state to its end reads that state. */
  lemma OnlyItself(s: DeviceState)
    requires Writable(s) && Keyed(s.outgoing) && Decode(Encode(3, s)).Ok?
    ensures Decode(Encode(3, s)) == Ok(s)
  {
    var p, a, b, c := EncodingOnlyParts(s);
    OnlyPartsRead(s, Encode(3, s), p, a, b, c, |Encode(3, s)|);
  }

  /**
   The plaintext an export writes is read back as the exported state if that state is
   well-formed, and refused otherwise.
   */
  lemma DecodeExact(s: DeviceState)
    requires Writable(s) && Keyed(s.outgoing)
    ensures Decode(Encode(3, s)).Ok? <==> WellFormed(s)
    ensures WellFormed(s) ==> Decode(Encode(3, s)) == Ok(s)
  {
    if WellFormed(s) {
      RoundTrip(3, s);
    }
    if Decode(Encode(3, s)).Ok? {
      OnlyItself(s);
      AcceptedIsWellFormed(Encode(3, s));
    }
  }
}
