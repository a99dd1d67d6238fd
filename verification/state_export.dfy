/**
 Exporting and importing a device state. The AES-GCM container is abstracted to what it
 guarantees: it opens under the key and context it was sealed with, and to nothing else.
 */
module StateExport {
  import opened Common
  import opened Bytes
  import opened MlsGroup
  import opened StateFormat
  import opened StateTheorems
  import opened StateRefusals
  import opened StateExact

  // ---------------------------------------------------------------- when an export succeeds

  ghost function UpToValues(s: DeviceState): Bytes
    requires Fits(s.identity) && Fits(s.publicKey) && ValuesFit(s.values)
  {
    Header(3, s.identity, s.publicKey) + ValueSection(s.values)
  }

  ghost function UpToPending(s: DeviceState): Bytes
    requires Fits(s.identity) && Fits(s.publicKey) && ValuesFit(s.values) && PendingsFit(s.pending)
  {
    UpToValues(s) + PendingSection(s.pending)
  }

  /**
   The counts are limited, every field fits its length prefix, and the output is within the size
   limit behind the last record of every section that has records. The size is not looked at
   behind the count of an empty section.
   */
  ghost predicate Exportable(s: DeviceState) {
    && Writable(s)
    && |s.values| <= MAX_STATE_ENTRIES
    && |s.pending| <= MAX_PENDING_APPLICATIONS
    && |s.outgoing| <= MAX_PENDING_OUTGOING
    && (s.values != map[] ==> |UpToValues(s)| <= MAX_STATE_BYTES)
    && (s.pending != map[] ==> |UpToPending(s)| <= MAX_STATE_BYTES)
    && (s.outgoing != map[] ==> |Encode(3, s)| <= MAX_STATE_BYTES)
  }

  lemma EncodeEnd(s: DeviceState)
    requires Writable(s)
    ensures Encode(3, s) == UpToPending(s) + OutgoingSection(s.outgoing)
  {}

  // ---------------------------------------------------------------- writing a section

  type Writer<!T> = (Bytes, T) -> Result<Bytes>

  function WriteValue(key: Bytes, value: Bytes): Result<Bytes> {
    if ValueFits(key, value) then Ok(ValueChunk(key, value)) else Err(InvalidInput)
  }

  function WritePending(key: Bytes, a: Application): Result<Bytes> {
    if PendingFits(key, a) then Ok(PendingChunk(key, a)) else Err(InvalidInput)
  }

  /** Outgoing messages are sorted by operation id, which is their key in the map. */
  function WriteOutgoing(key: Bytes, o: Outgoing): Result<Bytes> {
    if OutgoingFits(o) then Ok(OutgoingChunk(o)) else Err(InvalidInput)
  }

  ghost predicate AllWritten<T>(write: Writer<T>, m: map<Bytes, T>, keys: seq<Bytes>) {
    forall k :: k in keys ==> k in m && write(k, m[k]).Ok?
  }

  ghost predicate IsWritten<T>(write: Writer<T>, m: map<Bytes, T>, k: Bytes, chunk: Bytes) {
    k in m && write(k, m[k]) == Ok(chunk)
  }

  ghost function Written<T>(write: Writer<T>, m: map<Bytes, T>, keys: seq<Bytes>): (chunks: seq<Bytes>)
    requires AllWritten(write, m, keys)
    ensures |chunks| == |keys|
    ensures forall i :: 0 <= i < |keys| ==> IsWritten(write, m, keys[i], chunks[i])
  {
    assert forall i :: 0 <= i < |keys| ==> keys[i] in keys;
    seq(|keys|, i requires 0 <= i < |keys| => write(keys[i], m[keys[i]]).value)
  }

  lemma {:induction false} ConcatSnoc(chunks: seq<Bytes>, last: Bytes)
    ensures Concat(chunks + [last]) == Concat(chunks) + last
  {
    if chunks == [] {
      assert Concat([last]) == last + Concat([]);
    } else {
      ConcatSnoc(chunks[1..], last);
      assert (chunks + [last])[1..] == chunks[1..] + [last];
    }
  }

  lemma {:induction false} ConcatPrefix(chunks: seq<Bytes>, i: nat)
    requires i <= |chunks|
    ensures |Concat(chunks[..i])| <= |Concat(chunks)|
  {
    if i > 0 {
      ConcatPrefix(chunks[1..], i - 1);
      assert chunks[..i][1..] == chunks[1..][..i - 1];
    }
  }

  lemma WrittenNext<T>(write: Writer<T>, m: map<Bytes, T>, keys: seq<Bytes>, i: nat)
    requires i < |keys| && AllWritten(write, m, keys[..i]) && keys[i] in m && write(keys[i], m[keys[i]]).Ok?
    ensures AllWritten(write, m, keys[..i + 1])
    ensures Concat(Written(write, m, keys[..i + 1]))
            == Concat(Written(write, m, keys[..i])) + write(keys[i], m[keys[i]]).value
  {
    assert keys[..i + 1] == keys[..i] + [keys[i]];
    var before := Written(write, m, keys[..i]);
    assert Written(write, m, keys[..i + 1]) == before + [write(keys[i], m[keys[i]]).value];
    ConcatSnoc(before, write(keys[i], m[keys[i]]).value);
  }

  lemma WrittenPrefix<T>(write: Writer<T>, m: map<Bytes, T>, keys: seq<Bytes>, i: nat)
    requires i <= |keys| && AllWritten(write, m, keys)
    ensures AllWritten(write, m, keys[..i])
    ensures |Concat(Written(write, m, keys[..i]))| <= |Concat(Written(write, m, keys))|
  {
    assert forall k :: k in keys[..i] ==> k in keys;
    ConcatPrefix(Written(write, m, keys), i);
    assert Written(write, m, keys[..i]) == Written(write, m, keys)[..i];
  }

  /** What writing a section behind a prefix gives. */
  ghost predicate SectionWritten<T(!new)>(prefix: Bytes, m: map<Bytes, T>, write: Writer<T>, r: Result<Bytes>) {
    var keys := SortedList(m.Keys);
    && (r.Err? ==> r.error == InvalidInput)
    && (r.Ok? <==> AllWritten(write, m, keys)
                   && (m != map[] ==> |prefix + Concat(Written(write, m, keys))| <= MAX_STATE_BYTES))
    && (r.Ok? ==> r.value == prefix + Concat(Written(write, m, keys)))
  }

  /** The first i records are written behind the prefix. */
  ghost predicate WrittenUpTo<T>(
    write: Writer<T>, m: map<Bytes, T>, keys: seq<Bytes>, i: nat, prefix: Bytes, output: Bytes)
    requires i <= |keys|
  {
    AllWritten(write, m, keys[..i]) && output == prefix + Concat(Written(write, m, keys[..i]))
  }

  lemma WrittenFurther<T>(
    write: Writer<T>, m: map<Bytes, T>, keys: seq<Bytes>, i: nat, prefix: Bytes, output: Bytes, chunk: Bytes)
    requires i < |keys| && WrittenUpTo(write, m, keys, i, prefix, output) && IsWritten(write, m, keys[i], chunk)
    ensures WrittenUpTo(write, m, keys, i + 1, prefix, output + chunk)
  {
    assert keys[..i + 1] == keys[..i] + [keys[i]];
    WrittenNext(write, m, keys, i);
    Associative(prefix, Concat(Written(write, m, keys[..i])), chunk);
  }

  /** A record that cannot be written fails the section. */
  lemma NotWritten<T(!new)>(prefix: Bytes, m: map<Bytes, T>, write: Writer<T>, k: Bytes)
    requires k in m && write(k, m[k]).Err?
    ensures SectionWritten(prefix, m, write, Err(InvalidInput))
  {
    assert k in m.Keys;
  }

  /** So does a beginning that is too long. */
  lemma TooLong<T(!new)>(write: Writer<T>, m: map<Bytes, T>, keys: seq<Bytes>, i: nat, prefix: Bytes, output: Bytes)
    requires keys == SortedList(m.Keys) && 0 < i <= |keys| && WrittenUpTo(write, m, keys, i, prefix, output)
    requires |output| > MAX_STATE_BYTES
    ensures SectionWritten(prefix, m, write, Err(InvalidInput))
  {
    assert keys[0] in keys;
    if AllWritten(write, m, keys) {
      WrittenPrefix(write, m, keys, i);
    }
  }

  lemma AllOfIt<T(!new)>(write: Writer<T>, m: map<Bytes, T>, keys: seq<Bytes>, prefix: Bytes, output: Bytes)
    requires keys == SortedList(m.Keys) && WrittenUpTo(write, m, keys, |keys|, prefix, output)
    requires keys != [] ==> |output| <= MAX_STATE_BYTES
    ensures SectionWritten(prefix, m, write, Ok(output))
  {
    assert keys[..|keys|] == keys;
    if m != map[] {
      var k :| k in m;
      assert k in m.Keys;
    }
  }

  /** One of the three loops over the sorted records of a map. */
  method WriteRecords<T(!new)>(prefix: Bytes, m: map<Bytes, T>, write: Writer<T>) returns (r: Result<Bytes>)
    ensures SectionWritten(prefix, m, write, r)
  {
    var keys := SortKeys(m.Keys);
    ListsUnique(keys, SortedList(m.Keys), m.Keys);
    var output := prefix;
    assert prefix + [] == prefix;
    for i := 0 to |keys|
      invariant WrittenUpTo(write, m, keys, i, prefix, output)
      invariant i > 0 ==> |output| <= MAX_STATE_BYTES
    {
      assert keys[i] in keys;
      var chunk := write(keys[i], m[keys[i]]);
      if chunk.Err? {
        NotWritten(prefix, m, write, keys[i]);
        return Err(InvalidInput);
      }
      WrittenFurther(write, m, keys, i, prefix, output, chunk.value);
      output := output + chunk.value;
      if |output| > MAX_STATE_BYTES {
        TooLong(write, m, keys, i + 1, prefix, output);
        return Err(InvalidInput);
      }
    }
    AllOfIt(write, m, keys, prefix, output);
    return Ok(output);
  }

  /** The result of writing a section, with the section as one byte string. */
  lemma SectionResult<T(!new)>(
    prefix: Bytes, count: Bytes, m: map<Bytes, T>, write: Writer<T>, fits: bool, section: Bytes, r: Result<Bytes>)
    requires SectionWritten(prefix + count, m, write, r)
    requires fits <==> AllWritten(write, m, SortedList(m.Keys))
    requires fits ==> section == count + Concat(Written(write, m, SortedList(m.Keys)))
    ensures r == if fits && (m != map[] ==> |prefix + section| <= MAX_STATE_BYTES)
                 then Ok(prefix + section) else Err(InvalidInput)
  {
    if fits {
      assert prefix + count + Concat(Written(write, m, SortedList(m.Keys))) == prefix + section;
    }
  }

  lemma KeyListed<T>(m: map<Bytes, T>, keys: seq<Bytes>, k: Bytes)
    requires Lists(keys, m.Keys)
    ensures k in m <==> k in keys
  {}

  lemma KeysListed<T>(m: map<Bytes, T>, keys: seq<Bytes>)
    requires keys == SortedList(m.Keys)
    ensures forall k :: k in m <==> k in keys
  {
    forall k: Bytes ensures k in m <==> k in keys {
      KeyListed(m, keys, k);
    }
  }

  lemma ValuesWritten(m: map<Bytes, Bytes>)
    requires |m| < U32_LIMIT
    ensures AllWritten(WriteValue, m, SortedList(m.Keys)) <==> ValuesFit(m)
    ensures ValuesFit(m) ==> Written(WriteValue, m, SortedList(m.Keys)) == ValueChunks(m)
  {
    var keys := SortedList(m.Keys);
    KeysListed(m, keys);
    if ValuesFit(m) {
      var chunks := Written(WriteValue, m, keys);
      forall i | 0 <= i < |keys| ensures chunks[i] == ValueChunks(m)[i] {
        assert IsWritten(WriteValue, m, keys[i], chunks[i]);
      }
    }
  }

  lemma PendingWritten(m: map<Bytes, Application>)
    requires |m| < U32_LIMIT
    ensures AllWritten(WritePending, m, SortedList(m.Keys)) <==> PendingsFit(m)
    ensures PendingsFit(m) ==> Written(WritePending, m, SortedList(m.Keys)) == PendingChunks(m)
  {
    var keys := SortedList(m.Keys);
    KeysListed(m, keys);
    if PendingsFit(m) {
      var chunks := Written(WritePending, m, keys);
      forall i | 0 <= i < |keys| ensures chunks[i] == PendingChunks(m)[i] {
        assert IsWritten(WritePending, m, keys[i], chunks[i]);
      }
    }
  }

  lemma OutgoingWritten(m: map<Bytes, Outgoing>)
    requires |m| < U32_LIMIT
    ensures AllWritten(WriteOutgoing, m, SortedList(m.Keys)) <==> OutgoingsFit(m)
    ensures OutgoingsFit(m) ==> Written(WriteOutgoing, m, SortedList(m.Keys)) == OutgoingChunks(m)
  {
    var keys := SortedList(m.Keys);
    KeysListed(m, keys);
    if OutgoingsFit(m) {
      var chunks := Written(WriteOutgoing, m, keys);
      forall i | 0 <= i < |keys| ensures chunks[i] == OutgoingChunks(m)[i] {
        assert IsWritten(WriteOutgoing, m, keys[i], chunks[i]);
      }
    }
  }

  method WriteValues(prefix: Bytes, m: map<Bytes, Bytes>) returns (r: Result<Bytes>)
    requires |m| <= MAX_STATE_ENTRIES
    ensures r == if ValuesFit(m) && (m != map[] ==> |prefix + ValueSection(m)| <= MAX_STATE_BYTES)
                 then Ok(prefix + ValueSection(m)) else Err(InvalidInput)
  {
    r := WriteRecords(prefix + U32(|m|), m, WriteValue);
    ValuesWritten(m);
    SectionResult(prefix, U32(|m|), m, WriteValue, ValuesFit(m), if ValuesFit(m) then ValueSection(m) else [], r);
  }

  method WritePendings(prefix: Bytes, m: map<Bytes, Application>) returns (r: Result<Bytes>)
    requires |m| <= MAX_PENDING_APPLICATIONS
    ensures r == if PendingsFit(m) && (m != map[] ==> |prefix + PendingSection(m)| <= MAX_STATE_BYTES)
                 then Ok(prefix + PendingSection(m)) else Err(InvalidInput)
  {
    r := WriteRecords(prefix + U32(|m|), m, WritePending);
    PendingWritten(m);
    SectionResult(prefix, U32(|m|), m, WritePending, PendingsFit(m), if PendingsFit(m) then PendingSection(m) else [], r);
  }

  method WriteOutgoings(prefix: Bytes, m: map<Bytes, Outgoing>) returns (r: Result<Bytes>)
    requires |m| <= MAX_PENDING_OUTGOING
    ensures r == if OutgoingsFit(m) && (m != map[] ==> |prefix + OutgoingSection(m)| <= MAX_STATE_BYTES)
                 then Ok(prefix + OutgoingSection(m)) else Err(InvalidInput)
  {
    r := WriteRecords(prefix + U32(|m|), m, WriteOutgoing);
    OutgoingWritten(m);
    SectionResult(prefix, U32(|m|), m, WriteOutgoing, OutgoingsFit(m), if OutgoingsFit(m) then OutgoingSection(m) else [], r);
  }

  /** A file an export sealed, or any other bytes, of which only the length and the magic matter. */
  datatype File =
    | Sealed(key: nat, context: Bytes, plaintext: Bytes)
    | Foreign(length: nat, magic: bool)

  ghost function Exported(key: nat, context: Bytes, s: DeviceState): Result<File> {
    if Bounded(context, MAX_IDENTITY_BYTES) && Exportable(s) then Ok(Sealed(key, context, Encode(3, s)))
    else Err(InvalidInput)
  }

  /** `export_encrypted_state` */
  method Export(key: nat, context: Bytes, s: DeviceState) returns (r: Result<File>)
    requires Keyed(s.outgoing)
    ensures r == Exported(key, context, s)
  {
    if !Bounded(context, MAX_IDENTITY_BYTES)
       || |s.values| > MAX_STATE_ENTRIES || !Fits(s.identity) || !Fits(s.publicKey) {
      return Err(InvalidInput);
    }
    var output := WriteValues(Header(3, s.identity, s.publicKey), s.values);
    if output.Err? || |s.pending| > MAX_PENDING_APPLICATIONS {
      return Err(InvalidInput);
    }
    assert output.value == UpToValues(s);
    output := WritePendings(output.value, s.pending);
    if output.Err? || |s.outgoing| > MAX_PENDING_OUTGOING {
      return Err(InvalidInput);
    }
    output := WriteOutgoings(output.value, s.outgoing);
    if Writable(s) {
      EncodeEnd(s);
    }
    if output.Err? {
      return Err(InvalidInput);
    }
    return Ok(Sealed(key, context, output.value));
  }

  // ---------------------------------------------------------------- importing

  const OUTER_MAGIC_BYTES := 4
  const NONCE_BYTES := 12
  const TAG_BYTES := 16
  const MAX_ENCRYPTED_STATE_BYTES := OUTER_MAGIC_BYTES + NONCE_BYTES + MAX_STATE_BYTES + TAG_BYTES

  function FileLength(f: File): nat {
    match f
    case Sealed(_, _, plaintext) => OUTER_MAGIC_BYTES + NONCE_BYTES + |plaintext| + TAG_BYTES
    case Foreign(length, _) => length
  }

  predicate FileGate(f: File) {
    && OUTER_MAGIC_BYTES + NONCE_BYTES < FileLength(f) <= MAX_ENCRYPTED_STATE_BYTES
    && (f.Foreign? ==> f.magic)
  }

  /** `hasSigner` says whether the stored values hold the private key of a public key. */
  function Imported(key: nat, context: Bytes, file: File, hasSigner: (map<Bytes, Bytes>, Bytes) -> bool)
    : Result<DeviceState>
  {
    if !Bounded(context, MAX_IDENTITY_BYTES) || !FileGate(file) then Err(InvalidInput)
    else if file.Foreign? || file.key != key || file.context != context then Err(CryptographicFailure)
    else match Decode(file.plaintext)
      case Err(error) => Err(error)
      case Ok(s) => if hasSigner(s.values, s.publicKey) then Ok(s) else Err(CryptographicFailure)
  }

  /** `import_encrypted_state` */
  method Import(key: nat, context: Bytes, file: File, hasSigner: (map<Bytes, Bytes>, Bytes) -> bool)
    returns (r: Result<DeviceState>)
    ensures r == Imported(key, context, file, hasSigner)
  {
    if !Bounded(context, MAX_IDENTITY_BYTES) || !FileGate(file) {
      return Err(InvalidInput);
    }
    if file.Foreign? || file.key != key || file.context != context {
      return Err(CryptographicFailure);
    }
    r := DecodeState(file.plaintext);
    if r.Ok? && !hasSigner(r.value.values, r.value.publicKey) {
      return Err(CryptographicFailure);
    }
  }

  /** An import yields a state only from a file sealed under its key and context, and then a well-formed one. */
  lemma ImportIsAuthentic(key: nat, context: Bytes, file: File, hasSigner: (map<Bytes, Bytes>, Bytes) -> bool)
    requires Imported(key, context, file, hasSigner).Ok?
    ensures file.Sealed? && file.key == key && file.context == context
    ensures Decode(file.plaintext) == Imported(key, context, file, hasSigner)
    ensures WellFormed(Decode(file.plaintext).value)
    ensures |file.plaintext| <= MAX_STATE_BYTES
  {
    AcceptedIsWellFormed(file.plaintext);
  }

  /**
   Export and import: an exported file is accepted exactly when its state is well-formed, within the
   size limit and has its signer, and then gives that state back, never another one. The export
   guarantees neither the size nor that the receipts are well-formed.
   */
  lemma ImportUndoesExport(key: nat, context: Bytes, s: DeviceState, hasSigner: (map<Bytes, Bytes>, Bytes) -> bool)
    requires Exported(key, context, s).Ok? && Keyed(s.outgoing)
    ensures var r := Imported(key, context, Exported(key, context, s).value, hasSigner);
            && (r.Ok? <==> WellFormed(s) && |Encode(3, s)| <= MAX_STATE_BYTES && hasSigner(s.values, s.publicKey))
            && (r.Ok? ==> r.value == s)
            && (|Encode(3, s)| > MAX_STATE_BYTES ==> r == Err(InvalidInput))
  {
    DecodeExact(s);
  }

  /** An export can exceed the limit only by the two counts of empty sections, never with outgoing messages. */
  lemma ExportExcess(s: DeviceState)
    requires Bounded(s.identity, MAX_IDENTITY_BYTES) && |s.publicKey| == 32
    requires Exportable(s) && |Encode(3, s)| > MAX_STATE_BYTES
    ensures s.outgoing == map[]
    ensures |Encode(3, s)| <= MAX_STATE_BYTES + (if s.pending == map[] then 8 else 4)
  {
    EncodeEnd(s);
    if s.outgoing == map[] {
      EmptySection<Outgoing>(OutgoingChunks(s.outgoing), s.outgoing);
      if s.pending == map[] {
        EmptySection<Application>(PendingChunks(s.pending), s.pending);
        if s.values == map[] {
          EmptySection<Bytes>(ValueChunks(s.values), s.values);
        }
      }
    }
  }

  lemma EmptySection<T>(chunks: seq<Bytes>, m: map<Bytes, T>)
    requires m == map[] && |chunks| == |SortedList(m.Keys)|
    ensures Concat(chunks) == []
  {
    ListsCount(SortedList(m.Keys), m.Keys);
  }

  /** A device whose only stored value fills the plaintext up to the limit. */
  function FullState(): DeviceState {
    DeviceState([1], Zeros(32), map[[1] := Zeros(MAX_STATE_BYTES - 62)], map[], map[])
  }

  /** A well-formed state that is exported and whose file no import accepts. */
  lemma ExportThatCannotBeImported(key: nat, context: Bytes, hasSigner: (map<Bytes, Bytes>, Bytes) -> bool)
    requires Bounded(context, MAX_IDENTITY_BYTES)
    ensures WellFormed(FullState()) && Exported(key, context, FullState()).Ok?
    ensures Imported(key, context, Exported(key, context, FullState()).value, hasSigner) == Err(InvalidInput)
  {
    FullStateSize();
  }

  /** A device with one receipt, of a message whose sender has an empty credential. */
  function NamelessState(receipt: Bytes): DeviceState {
    DeviceState([1], Zeros(32), map[], map[receipt := Application([], [], Zeros(32), 0)], map[])
  }

  /** A small state that is exported and whose file no import accepts, because of that one receipt. */
  lemma NamelessCannotBeImported(
    receipt: Bytes, key: nat, context: Bytes, hasSigner: (map<Bytes, Bytes>, Bytes) -> bool)
    requires |receipt| <= 64 && Bounded(context, MAX_IDENTITY_BYTES)
    ensures Exported(key, context, NamelessState(receipt)).Ok? && |Encode(3, NamelessState(receipt))| <= 256
    ensures Imported(key, context, Exported(key, context, NamelessState(receipt)).value, hasSigner).Err?
  {
    var s := NamelessState(receipt);
    EmptySection<Bytes>(ValueChunks(s.values), s.values);
    OneReceiptSize(s.pending, receipt);
    EncodeEnd(s);
    EmptySection<Outgoing>(OutgoingChunks(s.outgoing), s.outgoing);
    ImportUndoesExport(key, context, s, hasSigner);
    assert !PendingOk(receipt, s.pending[receipt]);
  }

  lemma OneReceiptSize(m: map<Bytes, Application>, key: Bytes)
    requires PendingsFit(m) && m.Keys == {key}
    ensures |PendingSection(m)| == 4 + |PendingChunk(key, m[key])|
  {
    var keys := SortedList(m.Keys);
    ListsCount(keys, m.Keys);
    assert keys[0] in keys;
    assert PendingChunks(m) == [PendingChunk(key, m[key])];
    assert Concat(PendingChunks(m)[1..]) == [];
  }

  lemma FullStateSize()
    ensures WellFormed(FullState()) && Exportable(FullState())
    ensures |Encode(3, FullState())| == MAX_STATE_BYTES + 8
  {
    var s := FullState();
    OneValueSize(s.values, [1]);
    assert |UpToValues(s)| == MAX_STATE_BYTES;
    EncodeEnd(s);
    EmptySection<Outgoing>(OutgoingChunks(s.outgoing), s.outgoing);
    EmptySection<Application>(PendingChunks(s.pending), s.pending);
  }

  lemma OneValueSize(m: map<Bytes, Bytes>, key: Bytes)
    requires ValuesFit(m) && m.Keys == {key}
    ensures |ValueSection(m)| == 12 + |key| + |m[key]|
  {
    var keys := SortedList(m.Keys);
    ListsCount(keys, m.Keys);
    assert keys[0] in keys;
    assert ValueChunks(m) == [ValueChunk(key, m[key])];
    assert Concat(ValueChunks(m)[1..]) == [];
  }
}
