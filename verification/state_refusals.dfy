/** What the state reader refuses, and what everything it accepts satisfies. */
module StateRefusals {
  import opened Bytes
  import opened MlsGroup
  import opened StateFormat
  import opened StateTheorems

  // ---------------------------------------------------------------- bytes behind a record

  /** A successful read does not look behind what it consumed. */
  ghost predicate Local<T(!new)>(read: Reader<T>) {
    forall input: Bytes, more: Bytes, at: nat :: read(input, at).Done? ==> read(input + more, at) == read(input, at)
  }

  lemma BytesLocal(input: Bytes, more: Bytes, at: nat, max: nat)
    requires ReadBytes(input, at, max).Done?
    ensures ReadBytes(input + more, at, max) == ReadBytes(input, at, max)
  {
    var start := at + 4;
    assert (input + more)[at..start] == input[at..start];
    var length := FromU32(input[at..start]);
    assert (input + more)[start..start + length] == input[start..start + length];
  }

  lemma U64Local(input: Bytes, more: Bytes, at: nat)
    requires ReadU64(input, at).Done?
    ensures ReadU64(input + more, at) == ReadU64(input, at)
  {
    assert (input + more)[at..at + 8] == input[at..at + 8];
  }

  lemma CountLocal(input: Bytes, more: Bytes, at: nat, max: nat)
    requires ReadCount(input, at, max).Done?
    ensures ReadCount(input + more, at, max) == ReadCount(input, at, max)
  {
    assert (input + more)[at..at + 4] == input[at..at + 4];
  }

  lemma ValueLocal()
    ensures Local(ReadValue)
  {
    forall input: Bytes, more: Bytes, at: nat | ReadValue(input, at).Done?
      ensures ReadValue(input + more, at) == ReadValue(input, at)
    {
      BytesLocal(input, more, at, MAX_STATE_BYTES);
      BytesLocal(input, more, ReadBytes(input, at, MAX_STATE_BYTES).next, MAX_STATE_BYTES);
    }
  }

  lemma SenderLocal(key: Bytes, epoch: u64, input: Bytes, more: Bytes, at: nat)
    requires ReadSender(key, epoch, input, at).Done?
    ensures ReadSender(key, epoch, input + more, at) == ReadSender(key, epoch, input, at)
  {
    BytesLocal(input, more, at, MAX_IDENTITY_BYTES);
    var a := ReadBytes(input, at, MAX_IDENTITY_BYTES).next;
    BytesLocal(input, more, a, 32);
    BytesLocal(input, more, ReadBytes(input, a, 32).next, MAX_APPLICATION_BYTES);
  }

  lemma PendingStart(input: Bytes, at: nat) returns (key: Bytes, epoch: u64, p: nat)
    requires ReadPending(input, at).Done?
    ensures ReadBytes(input, at, MAX_GROUP_ID_BYTES + 12) == Done(key, p) && ReadU64(input, p) == Done(epoch, p + 8)
  {
    key, p := ReadBytes(input, at, MAX_GROUP_ID_BYTES + 12).value, ReadBytes(input, at, MAX_GROUP_ID_BYTES + 12).next;
    epoch := ReadU64(input, p).value;
  }

  lemma PendingLocalAt(input: Bytes, more: Bytes, at: nat)
    requires ReadPending(input, at).Done?
    ensures ReadPending(input + more, at) == ReadPending(input, at)
  {
    var key, epoch, p := PendingStart(input, at);
    BytesLocal(input, more, at, MAX_GROUP_ID_BYTES + 12);
    U64Local(input, more, p);
    PendingFrom(input, at, key, epoch, p);
    PendingFrom(input + more, at, key, epoch, p);
    SenderLocal(key, epoch, input, more, p + 8);
  }

  lemma PendingLocal()
    ensures Local(ReadPending)
  {
    forall input: Bytes, more: Bytes, at: nat | ReadPending(input, at).Done?
      ensures ReadPending(input + more, at) == ReadPending(input, at)
    {
      PendingLocalAt(input, more, at);
    }
  }

  /** Where the five parts of an outgoing message are read from. */
  ghost predicate OutgoingReadAt(input: Bytes, at: nat, p: nat, q: nat, r: nat) {
    && ReadBytes(input, at, MAX_GROUP_ID_BYTES).Done? && p == ReadBytes(input, at, MAX_GROUP_ID_BYTES).next
    && ReadBytes(input, p, OPERATION_ID_BYTES).Done? && q == ReadBytes(input, p, OPERATION_ID_BYTES).next
    && ReadU64(input, q).Done?
    && ReadBytes(input, q + 8, MAX_APPLICATION_BYTES).Done? && r == ReadBytes(input, q + 8, MAX_APPLICATION_BYTES).next
    && ReadBytes(input, r, MAX_WIRE_BYTES).Done?
  }

  lemma OutgoingReads(input: Bytes, at: nat) returns (p: nat, q: nat, r: nat)
    requires ReadOutgoing(input, at).Done?
    ensures OutgoingReadAt(input, at, p, q, r)
  {
    p := ReadBytes(input, at, MAX_GROUP_ID_BYTES).next;
    q := ReadBytes(input, p, OPERATION_ID_BYTES).next;
    r := ReadBytes(input, q + 8, MAX_APPLICATION_BYTES).next;
  }

  lemma OutgoingSame(input: Bytes, other: Bytes, at: nat, p: nat, q: nat, r: nat)
    requires OutgoingReadAt(input, at, p, q, r)
    requires ReadBytes(other, at, MAX_GROUP_ID_BYTES) == ReadBytes(input, at, MAX_GROUP_ID_BYTES)
    requires ReadBytes(other, p, OPERATION_ID_BYTES) == ReadBytes(input, p, OPERATION_ID_BYTES)
    requires ReadU64(other, q) == ReadU64(input, q)
    requires ReadBytes(other, q + 8, MAX_APPLICATION_BYTES) == ReadBytes(input, q + 8, MAX_APPLICATION_BYTES)
    requires ReadBytes(other, r, MAX_WIRE_BYTES) == ReadBytes(input, r, MAX_WIRE_BYTES)
    ensures ReadOutgoing(other, at) == ReadOutgoing(input, at)
  {}

  lemma OutgoingLocalAt(input: Bytes, more: Bytes, at: nat)
    requires ReadOutgoing(input, at).Done?
    ensures ReadOutgoing(input + more, at) == ReadOutgoing(input, at)
  {
    var p, q, r := OutgoingReads(input, at);
    BytesLocal(input, more, at, MAX_GROUP_ID_BYTES);
    BytesLocal(input, more, p, OPERATION_ID_BYTES);
    U64Local(input, more, q);
    BytesLocal(input, more, q + 8, MAX_APPLICATION_BYTES);
    BytesLocal(input, more, r, MAX_WIRE_BYTES);
    OutgoingSame(input, input + more, at, p, q, r);
  }

  lemma OutgoingLocal()
    ensures Local(ReadOutgoing)
  {
    forall input: Bytes, more: Bytes, at: nat | ReadOutgoing(input, at).Done?
      ensures ReadOutgoing(input + more, at) == ReadOutgoing(input, at)
    {
      OutgoingLocalAt(input, more, at);
    }
  }

  lemma {:induction false} SectionLocal<T(!new)>(
    read: Reader<T>, input: Bytes, more: Bytes, at: nat, count: nat, sofar: map<Bytes, T>)
    requires Local(read) && ReadSection(read, input, at, count, sofar).Done?
    ensures ReadSection(read, input + more, at, count, sofar) == ReadSection(read, input, at, count, sofar)
    decreases count
  {
    if count > 0 {
      var r := read(input, at);
      SectionLocal(read, input, more, r.next, count - 1, sofar[r.value.key := r.value.record]);
    }
  }

  lemma ValueSectionLocal(input: Bytes, more: Bytes, at: nat)
    requires ReadValueSection(input, at).Done?
    ensures ReadValueSection(input + more, at) == ReadValueSection(input, at)
  {
    CountLocal(input, more, at, MAX_STATE_ENTRIES);
    var c := ReadCount(input, at, MAX_STATE_ENTRIES);
    ValueLocal();
    SectionLocal(ReadValue, input, more, c.next, c.value, map[]);
  }

  lemma PendingSectionLocal(version: nat, input: Bytes, more: Bytes, at: nat)
    requires ReadPendingSection(version, input, at).Done?
    ensures ReadPendingSection(version, input + more, at) == ReadPendingSection(version, input, at)
  {
    if version >= 2 {
      CountLocal(input, more, at, MAX_PENDING_APPLICATIONS);
      var c := ReadCount(input, at, MAX_PENDING_APPLICATIONS);
      PendingLocal();
      SectionLocal(ReadPending, input, more, c.next, c.value, map[]);
    }
  }

  lemma OutgoingSectionLocal(version: nat, input: Bytes, more: Bytes, at: nat)
    requires ReadOutgoingSection(version, input, at).Done?
    ensures ReadOutgoingSection(version, input + more, at) == ReadOutgoingSection(version, input, at)
  {
    if version >= 3 {
      CountLocal(input, more, at, MAX_PENDING_OUTGOING);
      var c := ReadCount(input, at, MAX_PENDING_OUTGOING);
      OutgoingLocal();
      SectionLocal(ReadOutgoing, input, more, c.next, c.value, map[]);
    }
  }

  lemma VersionLocal(input: Bytes, more: Bytes)
    requires Version(input) != 0
    ensures Version(input + more) == Version(input)
  {
    assert input + more == Magic(Version(input)) + (input[8..] + more);
    VersionOfEncoding(Version(input), input[8..] + more);
  }

  /** A successful read of a state, taken apart. */
  lemma ReadStateParts(input: Bytes) returns (s: DeviceState, p: nat, a: nat, b: nat, c: nat, d: nat)
    requires ReadState(input).Done?
    ensures ReadState(input) == Done(s, d)
    ensures 1 <= Version(input) <= 3 && s.identity != [] && |s.publicKey| == 32
    ensures ReadBytes(input, 8, MAX_IDENTITY_BYTES) == Done(s.identity, p)
    ensures ReadBytes(input, p, MAX_PUBLIC_KEY_FIELD) == Done(s.publicKey, a)
    ensures ReadValueSection(input, a) == Done(s.values, b)
    ensures ReadPendingSection(Version(input), input, b) == Done(s.pending, c)
    ensures ReadOutgoingSection(Version(input), input, c) == Done(s.outgoing, d)
  {
    s := ReadState(input).value;
    p := ReadBytes(input, 8, MAX_IDENTITY_BYTES).next;
    a := ReadBytes(input, p, MAX_PUBLIC_KEY_FIELD).next;
    b := ReadValueSection(input, a).next;
    c := ReadPendingSection(Version(input), input, b).next;
    d := ReadState(input).next;
  }

  lemma ReadStateFrom(input: Bytes, s: DeviceState, p: nat, a: nat, b: nat, c: nat, d: nat)
    requires 1 <= Version(input) <= 3 && s.identity != [] && |s.publicKey| == 32
    requires ReadBytes(input, 8, MAX_IDENTITY_BYTES) == Done(s.identity, p)
    requires ReadBytes(input, p, MAX_PUBLIC_KEY_FIELD) == Done(s.publicKey, a)
    requires ReadValueSection(input, a) == Done(s.values, b)
    requires ReadPendingSection(Version(input), input, b) == Done(s.pending, c)
    requires ReadOutgoingSection(Version(input), input, c) == Done(s.outgoing, d)
    ensures ReadState(input) == Done(s, d)
  {}

  lemma StateLocal(input: Bytes, more: Bytes)
    requires ReadState(input).Done?
    ensures ReadState(input + more) == ReadState(input)
  {
    var s, p, a, b, c, d := ReadStateParts(input);
    VersionLocal(input, more);
    BytesLocal(input, more, 8, MAX_IDENTITY_BYTES);
    BytesLocal(input, more, p, MAX_PUBLIC_KEY_FIELD);
    ValueSectionLocal(input, more, a);
    PendingSectionLocal(Version(input), input, more, b);
    OutgoingSectionLocal(Version(input), input, more, c);
    ReadStateFrom(input + more, s, p, a, b, c, d);
  }

  /** Every extension of an accepted plaintext is refused. */
  lemma ExtensionRefused(input: Bytes, more: Bytes)
    requires Decode(input).Ok? && more != []
    ensures Decode(input + more) == Err(InvalidWireMessage)
  {
    StateLocal(input, more);
  }

  lemma NotBothAccepted(prefix: Bytes, more: Bytes)
    requires Decode(prefix + more).Ok? && more != []
    ensures Decode(prefix).Err?
  {
    if Decode(prefix).Ok? {
      ExtensionRefused(prefix, more);
    }
  }

  lemma CutInTwo(input: Bytes, length: nat)
    requires length < |input|
    ensures input[..length] + input[length..] == input && input[length..] != []
  {}

  /** Every proper prefix of an accepted plaintext is refused. */
  lemma PrefixRefused(input: Bytes, length: nat)
    requires Decode(input).Ok? && length < |input|
    ensures Decode(input[..length]).Err?
  {
    CutInTwo(input, length);
    NotBothAccepted(input[..length], input[length..]);
  }

  // ---------------------------------------------------------------- what is accepted

  /** Every record a reader accepts meets a condition. */
  ghost predicate Checks<T(!new)>(read: Reader<T>, ok: (Bytes, T) -> bool) {
    forall input: Bytes, at: nat ::
      read(input, at).Done? ==> ok(read(input, at).value.key, read(input, at).value.record)
  }

  ghost predicate AllOk<T>(ok: (Bytes, T) -> bool, m: map<Bytes, T>) {
    forall k :: k in m ==> ok(k, m[k])
  }

  /** A section of `count` records yields `count` keys, every record checked: no repeated key is accepted. */
  lemma {:induction false} SectionChecked<T(!new)>(
    read: Reader<T>, ok: (Bytes, T) -> bool, input: Bytes, at: nat, count: nat, sofar: map<Bytes, T>)
    requires Checks(read, ok) && AllOk(ok, sofar) && ReadSection(read, input, at, count, sofar).Done?
    ensures AllOk(ok, ReadSection(read, input, at, count, sofar).value)
    ensures |ReadSection(read, input, at, count, sofar).value| == |sofar| + count
    decreases count
  {
    if count > 0 {
      var r := read(input, at);
      SectionChecked(read, ok, input, r.next, count - 1, sofar[r.value.key := r.value.record]);
    }
  }

  lemma ValueChecks()
    ensures Checks(ReadValue, ValueOk)
  {}

  lemma ValuesChecked(input: Bytes, at: nat)
    requires ReadValueSection(input, at).Done?
    ensures ValuesOk(ReadValueSection(input, at).value)
  {
    var c := ReadCount(input, at, MAX_STATE_ENTRIES);
    ValueChecks();
    SectionChecked(ReadValue, ValueOk, input, c.next, c.value, map[]);
    assert AllOk(ValueOk, ReadValueSection(input, at).value);
  }

  lemma SenderChecks(key: Bytes, epoch: u64, input: Bytes, at: nat)
    requires ReadSender(key, epoch, input, at).Done? && |key| <= MAX_GROUP_ID_BYTES + 12
    ensures var r := ReadSender(key, epoch, input, at).value; PendingOk(r.key, r.record)
  {}

  lemma PendingChecks()
    ensures Checks(ReadPending, PendingOk)
  {
    forall input: Bytes, at: nat | ReadPending(input, at).Done?
      ensures PendingOk(ReadPending(input, at).value.key, ReadPending(input, at).value.record)
    {
      var key, epoch, p := PendingStart(input, at);
      PendingFrom(input, at, key, epoch, p);
      SenderChecks(key, epoch, input, p + 8);
    }
  }

  lemma PendingChecked(version: nat, input: Bytes, at: nat)
    requires ReadPendingSection(version, input, at).Done?
    ensures PendingsOk(ReadPendingSection(version, input, at).value)
    ensures version < 2 ==> ReadPendingSection(version, input, at).value == map[]
  {
    if version >= 2 {
      var c := ReadCount(input, at, MAX_PENDING_APPLICATIONS);
      PendingChecks();
      SectionChecked(ReadPending, PendingOk, input, c.next, c.value, map[]);
      assert AllOk(PendingOk, ReadPendingSection(version, input, at).value);
    }
  }

  lemma OutgoingChecks()
    ensures Checks(ReadOutgoing, OutgoingOk)
  {}

  lemma OutgoingChecked(version: nat, input: Bytes, at: nat)
    requires ReadOutgoingSection(version, input, at).Done?
    ensures OutgoingsOk(ReadOutgoingSection(version, input, at).value)
    ensures version < 3 ==> ReadOutgoingSection(version, input, at).value == map[]
  {
    if version >= 3 {
      var c := ReadCount(input, at, MAX_PENDING_OUTGOING);
      OutgoingChecks();
      SectionChecked(ReadOutgoing, OutgoingOk, input, c.next, c.value, map[]);
      assert AllOk(OutgoingOk, ReadOutgoingSection(version, input, at).value);
    }
  }

  /** Whatever is accepted is a well-formed state, with the maps its version lacks empty. */
  lemma AcceptedIsWellFormed(input: Bytes)
    requires Decode(input).Ok?
    ensures 1 <= Version(input) <= 3
    ensures WellFormed(Decode(input).value)
    ensures Kept(Version(input), Decode(input).value) == Decode(input).value
  {
    var s, p, a, b, c, d := ReadStateParts(input);
    ValuesChecked(input, a);
    PendingChecked(Version(input), input, b);
    OutgoingChecked(Version(input), input, c);
  }

  /** A plaintext of any version survives being rewritten in the newest one. */
  lemma MigrationKeepsState(input: Bytes)
    requires Decode(input).Ok?
    ensures Writable(Decode(input).value)
    ensures Decode(Encode(3, Decode(input).value)) == Decode(input)
  {
    AcceptedIsWellFormed(input);
    OkFits(Decode(input).value);
    RoundTrip(3, Decode(input).value);
  }

  // ---------------------------------------------------------------- the loops of the reader

  /** A `for _ in 0..count` loop that reads records into a map. */
  method ReadRecords<T(!new)>(read: Reader<T>, input: Bytes, at: nat, count: nat) returns (r: Parsed<map<Bytes, T>>)
    ensures r == ReadSection(read, input, at, count, map[])
  {
    var records: map<Bytes, T> := map[];
    var cursor := at;
    for i := 0 to count
      invariant ReadSection(read, input, at, count, map[]) == ReadSection(read, input, cursor, count - i, records)
    {
      var entry := read(input, cursor);
      if entry.Fail? {
        return Fail(entry.error);
      }
      if entry.value.key in records {
        return Fail(InvalidWireMessage);
      }
      records := records[entry.value.key := entry.value.record];
      cursor := entry.next;
    }
    return Done(records, cursor);
  }

  function CountedSection<T>(read: Reader<T>, input: Bytes, at: nat, max: nat): Parsed<map<Bytes, T>> {
    var (count, next) :- ReadCount(input, at, max);
    ReadSection(read, input, next, count, map[])
  }

  /** A count, checked against its limit, and that many records. */
  method ReadCounted<T(!new)>(read: Reader<T>, input: Bytes, at: nat, max: nat) returns (r: Parsed<map<Bytes, T>>)
    ensures r == CountedSection(read, input, at, max)
  {
    var count := ReadCount(input, at, max);
    if count.Fail? {
      return Fail(count.error);
    }
    r := ReadRecords(read, input, count.next, count.value);
  }

  /** What the reader makes of everything behind the public key. */
  ghost function MapsRead(version: nat, input: Bytes, identity: Bytes, publicKey: Bytes, at: nat): Parsed<DeviceState> {
    var (values, b) :- ReadValueSection(input, at);
    var (pending, c) :- ReadPendingSection(version, input, b);
    var (outgoing, d) :- ReadOutgoingSection(version, input, c);
    Done(DeviceState(identity, publicKey, values, pending, outgoing), d)
  }

  method ReadMaps(version: nat, input: Bytes, identity: Bytes, publicKey: Bytes, at: nat) returns (r: Parsed<DeviceState>)
    ensures r == MapsRead(version, input, identity, publicKey, at)
  {
    var values := ReadCounted(ReadValue, input, at, MAX_STATE_ENTRIES);
    if values.Fail? {
      return Fail(values.error);
    }
    var pending: Parsed<map<Bytes, Application>> := Done(map[], values.next);
    if version >= 2 {
      pending := ReadCounted(ReadPending, input, values.next, MAX_PENDING_APPLICATIONS);
      if pending.Fail? {
        return Fail(pending.error);
      }
    }
    var outgoing: Parsed<map<Bytes, Outgoing>> := Done(map[], pending.next);
    if version >= 3 {
      outgoing := ReadCounted(ReadOutgoing, input, pending.next, MAX_PENDING_OUTGOING);
      if outgoing.Fail? {
        return Fail(outgoing.error);
      }
    }
    return Done(DeviceState(identity, publicKey, values.value, pending.value, outgoing.value), outgoing.next);
  }

  /** `decode_state` */
  method DecodeState(input: Bytes) returns (r: Result<DeviceState>)
    ensures r == Decode(input)
  {
    var version := Version(input);
    if version == 0 {
      return Err(InvalidWireMessage);
    }
    var identity := ReadBytes(input, 8, MAX_IDENTITY_BYTES);
    if identity.Fail? {
      return Err(identity.error);
    }
    if identity.value == [] {
      return Err(InvalidInput);
    }
    var publicKey := ReadBytes(input, identity.next, MAX_PUBLIC_KEY_FIELD);
    if publicKey.Fail? {
      return Err(publicKey.error);
    }
    if |publicKey.value| != 32 {
      return Err(InvalidWireMessage);
    }
    var state := ReadMaps(version, input, identity.value, publicKey.value, publicKey.next);
    if state.Fail? {
      return Err(state.error);
    }
    if state.next != |input| {
      return Err(InvalidWireMessage);
    }
    return Ok(state.value);
  }
}
