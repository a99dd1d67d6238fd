/**
 The binary state format of client/native/yappa_mls: what an export writes, what an import
 accepts, in the three versions of the format.
 */
module StateFormat {
  import opened Bytes
  import opened MlsGroup

  const MAX_IDENTITY_BYTES := 1024
  const MAX_GROUP_ID_BYTES := 1024
  const MAX_WIRE_BYTES := 1024 * 1024
  const MAX_APPLICATION_BYTES := 256 * 1024
  const MAX_STATE_BYTES := 64 * 1024 * 1024
  const MAX_STATE_ENTRIES := 100_000
  const MAX_PENDING_APPLICATIONS := 1_000
  const MAX_PENDING_OUTGOING := 1_000
  const MAX_PUBLIC_KEY_FIELD := 128
  const OPERATION_ID_BYTES := 28

  /** "YMLSST01", "YMLSST02" and "YMLSST03" */
  function Magic(version: nat): (m: Bytes)
    requires 1 <= version <= 3
    ensures |m| == 8
  {
    [0x59, 0x4D, 0x4C, 0x53, 0x53, 0x54, 0x30, 0x30 + version]
  }

  type u64 = x: nat | x < U64_LIMIT

  datatype Application = Application(plaintext: Bytes, credential: Bytes, signatureKey: Bytes, epoch: u64)
  datatype Outgoing = Outgoing(group: Bytes, operation: Bytes, epoch: u64, plaintext: Bytes, wire: Bytes)

  datatype DeviceState = DeviceState(
    identity: Bytes, publicKey: Bytes,
    values: map<Bytes, Bytes>, pending: map<Bytes, Application>, outgoing: map<Bytes, Outgoing>)

  predicate Bounded(b: Bytes, max: nat) {
    1 <= |b| <= max
  }

  predicate OperationByte(b: byte) {
    0x30 <= b <= 0x39 || 0x41 <= b <= 0x5A || 0x61 <= b <= 0x7A || b == 0x5F || b == 0x2D
  }

  /** "mlsop_" and 22 characters of the URL-safe base64 alphabet. */
  predicate OperationIdOk(id: Bytes) {
    && |id| == OPERATION_ID_BYTES
    && id[..6] == [0x6D, 0x6C, 0x73, 0x6F, 0x70, 0x5F]
    && forall i :: 6 <= i < |id| ==> OperationByte(id[i])
  }

  // ---------------------------------------------------------------- reading

  datatype Parsed<+T> = Fail(error: MlsError) | Done(value: T, next: nat) {
    predicate IsFailure() {
      Fail?
    }

    function PropagateFailure<U>(): Parsed<U>
      requires Fail?
    {
      Fail(error)
    }

    function Extract(): (T, nat)
      requires Done?
    {
      (value, next)
    }
  }

  datatype Entry<+T> = Entry(key: Bytes, record: T)

  type Reader<!T> = (Bytes, nat) -> Parsed<Entry<T>>

  function ReadU32(input: Bytes, at: nat): Parsed<nat> {
    if at + 4 <= |input| then Done(FromU32(input[at..at + 4]), at + 4) else Fail(InvalidWireMessage)
  }

  function ReadU64(input: Bytes, at: nat): Parsed<u64> {
    if at + 8 <= |input| then Done(FromU64(input[at..at + 8]), at + 8) else Fail(InvalidWireMessage)
  }

  function ReadBytes(input: Bytes, at: nat, max: nat): Parsed<Bytes> {
    var (length, start) :- ReadU32(input, at);
    if length > max || start + length > |input| then Fail(InvalidWireMessage)
    else Done(input[start..start + length], start + length)
  }

  function ReadCount(input: Bytes, at: nat, max: nat): Parsed<nat> {
    var (count, next) :- ReadU32(input, at);
    if count > max then Fail(InvalidWireMessage) else Done(count, next)
  }

  predicate ValueOk(key: Bytes, value: Bytes) {
    1 <= |key| <= MAX_STATE_BYTES && |value| <= MAX_STATE_BYTES
  }

  function ReadValue(input: Bytes, at: nat): Parsed<Entry<Bytes>> {
    var (key, a) :- ReadBytes(input, at, MAX_STATE_BYTES);
    var (value, b) :- ReadBytes(input, a, MAX_STATE_BYTES);
    if key == [] then Fail(InvalidWireMessage) else Done(Entry(key, value), b)
  }

  predicate PendingOk(key: Bytes, a: Application) {
    && Bounded(key, MAX_GROUP_ID_BYTES + 12)
    && Bounded(a.credential, MAX_IDENTITY_BYTES)
    && |a.signatureKey| == 32
    && |a.plaintext| <= MAX_APPLICATION_BYTES
  }

  /** What of a receipt follows its key and its epoch. */
  function ReadSender(key: Bytes, epoch: u64, input: Bytes, at: nat): Parsed<Entry<Application>> {
    var (credential, a) :- ReadBytes(input, at, MAX_IDENTITY_BYTES);
    var (signatureKey, b) :- ReadBytes(input, a, 32);
    var (plaintext, c) :- ReadBytes(input, b, MAX_APPLICATION_BYTES);
    if key == [] || credential == [] || |signatureKey| != 32 then Fail(InvalidWireMessage)
    else Done(Entry(key, Application(plaintext, credential, signatureKey, epoch)), c)
  }

  function ReadPending(input: Bytes, at: nat): Parsed<Entry<Application>> {
    var (key, a) :- ReadBytes(input, at, MAX_GROUP_ID_BYTES + 12);
    var (epoch, b) :- ReadU64(input, a);
    ReadSender(key, epoch, input, b)
  }

  predicate OutgoingOk(key: Bytes, o: Outgoing) {
    && key == o.operation
    && OperationIdOk(o.operation)
    && Bounded(o.group, MAX_GROUP_ID_BYTES)
    && Bounded(o.plaintext, MAX_APPLICATION_BYTES)
    && Bounded(o.wire, MAX_WIRE_BYTES)
  }

  function ReadOutgoing(input: Bytes, at: nat): Parsed<Entry<Outgoing>> {
    var (group, a) :- ReadBytes(input, at, MAX_GROUP_ID_BYTES);
    var (operation, b) :- ReadBytes(input, a, OPERATION_ID_BYTES);
    if !Bounded(group, MAX_GROUP_ID_BYTES) || !OperationIdOk(operation) then Fail(InvalidInput)
    else
      var (epoch, c) :- ReadU64(input, b);
      var (plaintext, d) :- ReadBytes(input, c, MAX_APPLICATION_BYTES);
      var (wire, e) :- ReadBytes(input, d, MAX_WIRE_BYTES);
      if plaintext == [] || wire == [] then Fail(InvalidWireMessage)
      else Done(Entry(operation, Outgoing(group, operation, epoch, plaintext, wire)), e)
  }

  /** `count` records into a map; a repeated key is refused. */
  function ReadSection<T>(read: Reader<T>, input: Bytes, at: nat, count: nat, sofar: map<Bytes, T>)
    : Parsed<map<Bytes, T>>
    decreases count
  {
    if count == 0 then Done(sofar, at)
    else
      var (e, next) :- read(input, at);
      if e.key in sofar then Fail(InvalidWireMessage)
      else ReadSection(read, input, next, count - 1, sofar[e.key := e.record])
  }

  function Version(input: Bytes): nat {
    if Magic(3) <= input then 3 else if Magic(2) <= input then 2 else if Magic(1) <= input then 1 else 0
  }

  function ReadPendingSection(version: nat, input: Bytes, at: nat): Parsed<map<Bytes, Application>> {
    if version < 2 then Done(map[], at)
    else
      var (count, next) :- ReadCount(input, at, MAX_PENDING_APPLICATIONS);
      ReadSection(ReadPending, input, next, count, map[])
  }

  function ReadOutgoingSection(version: nat, input: Bytes, at: nat): Parsed<map<Bytes, Outgoing>> {
    if version < 3 then Done(map[], at)
    else
      var (count, next) :- ReadCount(input, at, MAX_PENDING_OUTGOING);
      ReadSection(ReadOutgoing, input, next, count, map[])
  }

  /** Everything but the check that the whole input was used. */
  function ReadState(input: Bytes): Parsed<DeviceState> {
    if Version(input) == 0 then Fail(InvalidWireMessage)
    else
      var (identity, a) :- ReadBytes(input, 8, MAX_IDENTITY_BYTES);
      if identity == [] then Fail(InvalidInput)
      else
        var (publicKey, b) :- ReadBytes(input, a, MAX_PUBLIC_KEY_FIELD);
        if |publicKey| != 32 then Fail(InvalidWireMessage)
        else
          var (count, c) :- ReadCount(input, b, MAX_STATE_ENTRIES);
          var (values, d) :- ReadSection(ReadValue, input, c, count, map[]);
          var (pending, e) :- ReadPendingSection(Version(input), input, d);
          var (outgoing, f) :- ReadOutgoingSection(Version(input), input, e);
          Done(DeviceState(identity, publicKey, values, pending, outgoing), f)
  }

  function Decode(input: Bytes): Result<DeviceState> {
    match ReadState(input)
    case Fail(error) => Err(error)
    case Done(state, next) => if next == |input| then Ok(state) else Err(InvalidWireMessage)
  }

  // ---------------------------------------------------------------- writing

  predicate Fits(b: Bytes) {
    |b| < U32_LIMIT
  }

  /** `write_bytes`: the length and the bytes. */
  function Field(b: Bytes): Bytes
    requires Fits(b)
  {
    U32(|b|) + b
  }

  predicate ValueFits(key: Bytes, value: Bytes) {
    Fits(key) && Fits(value)
  }

  function ValueChunk(key: Bytes, value: Bytes): Bytes
    requires ValueFits(key, value)
  {
    Field(key) + Field(value)
  }

  predicate PendingFits(key: Bytes, a: Application) {
    Fits(key) && Fits(a.credential) && Fits(a.signatureKey) && Fits(a.plaintext)
  }

  function PendingChunk(key: Bytes, a: Application): Bytes
    requires PendingFits(key, a)
  {
    Field(key) + (U64(a.epoch) + (Field(a.credential) + (Field(a.signatureKey) + Field(a.plaintext))))
  }

  predicate OutgoingFits(o: Outgoing) {
    Fits(o.group) && Fits(o.operation) && Fits(o.plaintext) && Fits(o.wire)
  }

  function OutgoingChunk(o: Outgoing): Bytes
    requires OutgoingFits(o)
  {
    Field(o.group) + (Field(o.operation) + (U64(o.epoch) + (Field(o.plaintext) + Field(o.wire))))
  }

  function Concat(chunks: seq<Bytes>): Bytes {
    if chunks == [] then [] else chunks[0] + Concat(chunks[1..])
  }

  /** Every field fits its length prefix, and the count too. */
  ghost predicate ValuesFit(m: map<Bytes, Bytes>) {
    |m| < U32_LIMIT && forall k :: k in m ==> ValueFits(k, m[k])
  }

  ghost predicate PendingsFit(m: map<Bytes, Application>) {
    |m| < U32_LIMIT && forall k :: k in m ==> PendingFits(k, m[k])
  }

  ghost predicate OutgoingsFit(m: map<Bytes, Outgoing>) {
    |m| < U32_LIMIT && forall k :: k in m ==> OutgoingFits(m[k])
  }

  ghost predicate Writable(s: DeviceState) {
    && Fits(s.identity) && Fits(s.publicKey)
    && ValuesFit(s.values) && PendingsFit(s.pending) && OutgoingsFit(s.outgoing)
  }

  /** The records of a map in the order of their keys. */
  ghost function ValueChunks(m: map<Bytes, Bytes>): seq<Bytes>
    requires ValuesFit(m)
  {
    var keys := SortedList(m.Keys);
    seq(|keys|, i requires 0 <= i < |keys| => ValueChunk(keys[i], m[keys[i]]))
  }

  ghost function PendingChunks(m: map<Bytes, Application>): seq<Bytes>
    requires PendingsFit(m)
  {
    var keys := SortedList(m.Keys);
    seq(|keys|, i requires 0 <= i < |keys| => PendingChunk(keys[i], m[keys[i]]))
  }

  ghost function OutgoingChunks(m: map<Bytes, Outgoing>): seq<Bytes>
    requires OutgoingsFit(m)
  {
    var keys := SortedList(m.Keys);
    seq(|keys|, i requires 0 <= i < |keys| => OutgoingChunk(m[keys[i]]))
  }

  ghost function ValueSection(m: map<Bytes, Bytes>): Bytes
    requires ValuesFit(m)
  {
    U32(|m|) + Concat(ValueChunks(m))
  }

  ghost function PendingSection(m: map<Bytes, Application>): Bytes
    requires PendingsFit(m)
  {
    U32(|m|) + Concat(PendingChunks(m))
  }

  ghost function OutgoingSection(m: map<Bytes, Outgoing>): Bytes
    requires OutgoingsFit(m)
  {
    U32(|m|) + Concat(OutgoingChunks(m))
  }

  function Header(version: nat, identity: Bytes, publicKey: Bytes): Bytes
    requires 1 <= version <= 3 && Fits(identity) && Fits(publicKey)
  {
    Magic(version) + (Field(identity) + Field(publicKey))
  }

  /** The plaintext of a state in one of the three versions; exports always write version 3. */
  ghost function Encode(version: nat, s: DeviceState): Bytes
    requires 1 <= version <= 3 && Writable(s)
  {
    Header(version, s.identity, s.publicKey)
    + (ValueSection(s.values)
       + ((if version >= 2 then PendingSection(s.pending) else [])
          + (if version >= 3 then OutgoingSection(s.outgoing) else [])))
  }

  /** What the map entries and fields of a device state satisfy. */
  ghost predicate ValuesOk(m: map<Bytes, Bytes>) {
    |m| <= MAX_STATE_ENTRIES && forall k :: k in m ==> ValueOk(k, m[k])
  }

  ghost predicate PendingsOk(m: map<Bytes, Application>) {
    |m| <= MAX_PENDING_APPLICATIONS && forall k :: k in m ==> PendingOk(k, m[k])
  }

  ghost predicate OutgoingsOk(m: map<Bytes, Outgoing>) {
    |m| <= MAX_PENDING_OUTGOING && forall k :: k in m ==> OutgoingOk(k, m[k])
  }

  ghost predicate WellFormed(s: DeviceState) {
    && Bounded(s.identity, MAX_IDENTITY_BYTES) && |s.publicKey| == 32
    && ValuesOk(s.values) && PendingsOk(s.pending) && OutgoingsOk(s.outgoing)
  }

  lemma OkFits(s: DeviceState)
    ensures ValuesOk(s.values) ==> ValuesFit(s.values)
    ensures PendingsOk(s.pending) ==> PendingsFit(s.pending)
    ensures OutgoingsOk(s.outgoing) ==> OutgoingsFit(s.outgoing)
  {}
}
