/** The bytes of the state format, field by field, and the limits and errors of its records in numbers. */
module StateLayout {
  import opened Bytes
  import opened MlsGroup
  import opened StateFormat

  // ---------------------------------------------------------------- numbers and fields

  /** The most significant byte comes first. */
  lemma NumberLayout(n: nat)
    ensures n < 0x1_0000_0000 ==>
              U32(n)[0] as int * 0x100_0000 + U32(n)[1] as int * 0x1_0000 + U32(n)[2] as int * 0x100 + U32(n)[3] as int == n
    ensures n < 0x1_0000_0000_0000_0000 ==>
              && U64(n)[..4] == U32(n / 0x1_0000_0000) && U64(n)[4..] == U32(n % 0x1_0000_0000)
  {
    if n < 0x1_0000_0000 {
      U32RoundTrip(n);
    }
  }

  /** Four bytes of length, then the bytes. */
  function Prefixed(b: Bytes): Bytes
    requires |b| < 0x1_0000_0000
  {
    U32(|b|) + b
  }

  lemma ListOfOne(k: Bytes)
    ensures SortedList({k}) == [k]
  {
    assert Lists([k], {k});
    ListsUnique(SortedList({k}), [k], {k});
  }

  lemma ListOfTwo(a: Bytes, b: Bytes)
    requires Less(a, b)
    ensures SortedList({a, b}) == [a, b]
  {
    assert Lists([a, b], {a, b});
    ListsUnique(SortedList({a, b}), [a, b], {a, b});
  }

  /** It is the beginning of the other, or has the smaller byte at the first difference. */
  ghost predicate ComesBefore(a: Bytes, b: Bytes) {
    a < b || exists i: nat :: Differs(a, b, i)
  }

  predicate Differs(a: Bytes, b: Bytes, i: nat) {
    i < |a| && i < |b| && a[..i] == b[..i] && a[i] < b[i]
  }

  lemma TailBefore(a: Bytes, b: Bytes)
    requires a != [] && b != [] && a[0] == b[0] && ComesBefore(a[1..], b[1..])
    ensures ComesBefore(a, b)
  {
    if a[1..] < b[1..] {
      assert a == [a[0]] + a[1..] && b == [b[0]] + b[1..];
    } else {
      var i: nat :| Differs(a[1..], b[1..], i);
      assert a[..i + 1] == [a[0]] + a[1..][..i] && b[..i + 1] == [b[0]] + b[1..][..i];
      assert Differs(a, b, i + 1);
    }
  }

  lemma BeforeTail(a: Bytes, b: Bytes)
    requires a != [] && b != [] && a[0] == b[0] && ComesBefore(a, b)
    ensures ComesBefore(a[1..], b[1..])
  {
    if a < b {
      assert a[1..] < b[1..];
    } else {
      var i: nat :| Differs(a, b, i);
      assert a[1..][..i - 1] == a[..i][1..] && b[1..][..i - 1] == b[..i][1..];
      assert Differs(a[1..], b[1..], i - 1);
    }
  }

  lemma OtherHeads(a: Bytes, b: Bytes)
    requires a != [] && b != [] && a[0] != b[0]
    ensures ComesBefore(a, b) <==> a[0] < b[0]
  {
    if a[0] < b[0] {
      assert a[..0] == b[..0];
      assert Differs(a, b, 0);
    } else {
      assert forall i: nat :: 0 < i <= |a| && i <= |b| ==> a[..i][0] == a[0] && b[..i][0] == b[0];
    }
  }

  /** The order of the records. */
  lemma {:induction false} LessMeans(a: Bytes, b: Bytes)
    ensures Less(a, b) <==> ComesBefore(a, b)
  {
    if a == [] || b == [] {
    } else if a[0] == b[0] {
      LessMeans(a[1..], b[1..]);
      if ComesBefore(a[1..], b[1..]) {
        TailBefore(a, b);
      }
      if ComesBefore(a, b) {
        BeforeTail(a, b);
      }
    } else {
      OtherHeads(a, b);
    }
  }

  // ---------------------------------------------------------------- a whole state

  lemma Counts()
    ensures U32(1) == [0, 0, 0, 1] && U32(2) == [0, 0, 0, 2]
  {}

  lemma ConcatOne(chunk: Bytes)
    ensures Concat([chunk]) == chunk
  {
    assert Concat([chunk]) == chunk + Concat([]);
  }

  lemma ConcatTwo(a: Bytes, b: Bytes)
    ensures Concat([a, b]) == a + b
  {
    ConcatOne(b);
    assert [a, b][1..] == [b];
  }

  lemma KeysOfOne<T>(key: Bytes, value: T)
    ensures |map[key := value]| == 1 && SortedList(map[key := value].Keys) == [key]
  {
    ListOfOne(key);
    assert map[key := value].Keys == {key};
  }

  /** A value: its key and its bytes. */
  lemma ValuesLayout(key: Bytes, value: Bytes)
    requires Fits(key) && Fits(value)
    ensures ValuesFit(map[key := value])
    ensures ValueSection(map[key := value]) == [0, 0, 0, 1] + (Prefixed(key) + Prefixed(value))
  {
    KeysOfOne(key, value);
    Counts();
    assert ValueChunks(map[key := value]) == [ValueChunk(key, value)];
    ConcatOne(ValueChunk(key, value));
  }

  lemma OnePending(key: Bytes, a: Application)
    requires PendingFits(key, a)
    ensures PendingsFit(map[key := a]) && PendingSection(map[key := a]) == [0, 0, 0, 1] + PendingChunk(key, a)
  {
    KeysOfOne(key, a);
    Counts();
    assert PendingChunks(map[key := a]) == [PendingChunk(key, a)];
    ConcatOne(PendingChunk(key, a));
  }

  /** A receipt: its key, the epoch in eight bytes, then credential, signature key and plaintext. */
  lemma PendingLayout(key: Bytes, a: Application)
    requires Fits(key) && Fits(a.credential) && Fits(a.signatureKey) && Fits(a.plaintext)
    ensures PendingsFit(map[key := a])
    ensures PendingSection(map[key := a])
            == [0, 0, 0, 1] + (Prefixed(key) + (U64(a.epoch) + (Prefixed(a.credential)
               + (Prefixed(a.signatureKey) + Prefixed(a.plaintext)))))
  {
    OnePending(key, a);
  }

  lemma OneOutgoing(o: Outgoing)
    requires OutgoingFits(o)
    ensures OutgoingsFit(map[o.operation := o])
    ensures OutgoingSection(map[o.operation := o]) == [0, 0, 0, 1] + OutgoingChunk(o)
  {
    KeysOfOne(o.operation, o);
    Counts();
    assert OutgoingChunks(map[o.operation := o]) == [OutgoingChunk(o)];
    ConcatOne(OutgoingChunk(o));
  }

  /** An outgoing message: group, operation id, the epoch in eight bytes, then plaintext and ciphertext. */
  lemma OutgoingLayout(o: Outgoing)
    requires Fits(o.group) && Fits(o.operation) && Fits(o.plaintext) && Fits(o.wire)
    ensures OutgoingsFit(map[o.operation := o])
    ensures OutgoingSection(map[o.operation := o])
            == [0, 0, 0, 1] + (Prefixed(o.group) + (Prefixed(o.operation) + (U64(o.epoch)
               + (Prefixed(o.plaintext) + Prefixed(o.wire)))))
  {
    OneOutgoing(o);
  }

  lemma KeysOfTwo(a: Bytes, x: Bytes, b: Bytes, y: Bytes)
    requires Less(a, b)
    ensures var m := map[a := x, b := y];
            |m| == 2 && SortedList(m.Keys) == [a, b] && m[a] == x && m[b] == y
  {
    LessIrreflexive(a);
    var m := map[a := x, b := y];
    ListOfTwo(a, b);
    assert m.Keys == {a, b};
    assert |m.Keys| == |m|;
  }

  lemma TwoChunks(m: map<Bytes, Bytes>, a: Bytes, b: Bytes)
    requires ValuesFit(m) && SortedList(m.Keys) == [a, b] && a in m && b in m
    ensures ValueChunks(m) == [ValueChunk(a, m[a]), ValueChunk(b, m[b])]
  {}

  /** Two records come in the order of their keys. */
  lemma TwoValues(a: Bytes, x: Bytes, b: Bytes, y: Bytes)
    requires Less(a, b) && Fits(a) && Fits(b) && Fits(x) && Fits(y)
    ensures var m := map[a := x, b := y];
            && ValuesFit(m)
            && ValueSection(m) == [0, 0, 0, 2] + ((Prefixed(a) + Prefixed(x)) + (Prefixed(b) + Prefixed(y)))
  {
    var m := map[a := x, b := y];
    KeysOfTwo(a, x, b, y);
    Counts();
    TwoChunks(m, a, b);
    ConcatTwo(ValueChunk(a, x), ValueChunk(b, y));
  }

  lemma Flat(m: Bytes, i: Bytes, k: Bytes, v: Bytes, p: Bytes, o: Bytes)
    ensures m + (i + k) + (v + (p + o)) == m + i + k + v + p + o
    ensures m + (i + k) + (v + (p + [])) == m + i + k + v + p
    ensures m + (i + k) + (v + ([] + [])) == m + i + k + v
  {}

  /** The three sections of version 3 behind the identity and the public key; versions 2 and 1 end earlier. */
  lemma VersionLayout(s: DeviceState)
    requires Writable(s)
    ensures Encode(3, s)
            == [0x59, 0x4D, 0x4C, 0x53, 0x53, 0x54, 0x30, 0x33] + Prefixed(s.identity) + Prefixed(s.publicKey)
               + ValueSection(s.values) + PendingSection(s.pending) + OutgoingSection(s.outgoing)
    ensures Encode(2, s)
            == [0x59, 0x4D, 0x4C, 0x53, 0x53, 0x54, 0x30, 0x32] + Prefixed(s.identity) + Prefixed(s.publicKey)
               + ValueSection(s.values) + PendingSection(s.pending)
    ensures Encode(1, s)
            == [0x59, 0x4D, 0x4C, 0x53, 0x53, 0x54, 0x30, 0x31] + Prefixed(s.identity) + Prefixed(s.publicKey)
               + ValueSection(s.values)
  {
    var identity, key := Prefixed(s.identity), Prefixed(s.publicKey);
    var values, pending, outgoing := ValueSection(s.values), PendingSection(s.pending), OutgoingSection(s.outgoing);
    Flat(Magic(3), identity, key, values, pending, outgoing);
    Flat(Magic(2), identity, key, values, pending, outgoing);
    Flat(Magic(1), identity, key, values, pending, outgoing);
  }

  // ---------------------------------------------------------------- limits

  /** What an import accepts, in numbers. */
  lemma LimitsMean(s: DeviceState)
    ensures WellFormed(s) <==>
              && 1 <= |s.identity| <= 1024 && |s.publicKey| == 32
              && |s.values| <= 100000 && |s.pending| <= 1000 && |s.outgoing| <= 1000
              && (forall k :: k in s.values ==> 1 <= |k| <= 67108864 && |s.values[k]| <= 67108864)
              && (forall k :: k in s.pending ==>
                    && 1 <= |k| <= 1036 && 1 <= |s.pending[k].credential| <= 1024 && |s.pending[k].signatureKey| == 32
                    && |s.pending[k].plaintext| <= 262144)
              && (forall k :: k in s.outgoing ==>
                    && k == s.outgoing[k].operation && OperationIdOk(k) && 1 <= |s.outgoing[k].group| <= 1024
                    && 1 <= |s.outgoing[k].plaintext| <= 262144 && 1 <= |s.outgoing[k].wire| <= 1048576)
  {}

  // ---------------------------------------------------------------- errors

  /** A field of at most so many bytes that is all there: four bytes of length, and as many bytes. */
  ghost predicate FieldAt(input: Bytes, at: nat, max: nat, b: Bytes) {
    |b| <= max && |b| < 0x1_0000_0000 && at + 4 + |b| <= |input| && input[at..at + 4 + |b|] == Prefixed(b)
  }

  lemma FieldMeans(input: Bytes, at: nat, max: nat, b: Bytes)
    ensures FieldAt(input, at, max, b) <==> ReadBytes(input, at, max) == Done(b, at + 4 + |b|)
    ensures ReadBytes(input, at, max).Fail? ==> ReadBytes(input, at, max).error == InvalidWireMessage
  {
    if FieldAt(input, at, max, b) {
      U32RoundTrip(|b|);
      assert input[at..at + 4] == input[at..at + 4 + |b|][..4];
      assert input[at + 4..at + 4 + |b|] == input[at..at + 4 + |b|][4..];
    }
    if ReadBytes(input, at, max) == Done(b, at + 4 + |b|) {
      var prefix := input[at..at + 4];
      assert FromU32(prefix) == |b|;
      WrittenPrefix(prefix);
      assert input[at..at + 4 + |b|] == prefix + input[at + 4..at + 4 + |b|];
    }
  }

  lemma WrittenPrefix(b: Bytes)
    requires |b| == 4
    ensures U32(FromU32(b)) == b
  {
    var n := FromU32(b);
    assert n / 0x1_0000 == b[0] as int * 256 + b[1] && n % 0x1_0000 == b[2] as int * 256 + b[3];
    assert b == [b[0], b[1], b[2], b[3]];
  }

  /** The device id is readable and empty. */
  ghost predicate EmptyIdentity(input: Bytes) {
    Version(input) != 0 && FieldAt(input, 8, 1024, [])
  }

  /** An outgoing message whose group or operation id is readable and not acceptable. */
  ghost predicate BadRouting(input: Bytes, at: nat) {
    exists group, operation :: RoutingAt(input, at, group, operation) && (group == [] || !OperationIdOk(operation))
  }

  ghost predicate RoutingAt(input: Bytes, at: nat, group: Bytes, operation: Bytes) {
    FieldAt(input, at, 1024, group) && FieldAt(input, at + 4 + |group|, 28, operation)
  }

  lemma ReadFieldAt(input: Bytes, at: nat, max: nat)
    requires ReadBytes(input, at, max).Done?
    ensures var field := ReadBytes(input, at, max);
            field.next == at + 4 + |field.value| && FieldAt(input, at, max, field.value)
  {
    FieldEnd(input, at, max);
    FieldMeans(input, at, max, ReadBytes(input, at, max).value);
  }

  lemma ReadIsBadRouting(input: Bytes, at: nat)
    requires ReadsBadRouting(input, at)
    ensures BadRouting(input, at)
  {
    var group := ReadBytes(input, at, 1024);
    ReadFieldAt(input, at, 1024);
    ReadFieldAt(input, group.next, 28);
    assert RoutingAt(input, at, group.value, ReadBytes(input, group.next, 28).value);
  }

  lemma BadRoutingIsRead(input: Bytes, at: nat, group: Bytes, operation: Bytes)
    requires RoutingAt(input, at, group, operation) && (group == [] || !OperationIdOk(operation))
    ensures ReadsBadRouting(input, at)
  {
    FieldMeans(input, at, 1024, group);
    FieldMeans(input, at + 4 + |group|, 28, operation);
  }

  lemma BadRoutingMeans(input: Bytes, at: nat)
    ensures BadRouting(input, at) <==> ReadsBadRouting(input, at)
  {
    if ReadsBadRouting(input, at) {
      ReadIsBadRouting(input, at);
    }
    if BadRouting(input, at) {
      var group, operation :| RoutingAt(input, at, group, operation) && (group == [] || !OperationIdOk(operation));
      BadRoutingIsRead(input, at, group, operation);
    }
  }

  ghost predicate ReadsBadRouting(input: Bytes, at: nat) {
    var group := ReadBytes(input, at, 1024);
    && group.Done? && ReadBytes(input, group.next, 28).Done?
    && (group.value == [] || !OperationIdOk(ReadBytes(input, group.next, 28).value))
  }

  lemma FieldEnd(input: Bytes, at: nat, max: nat)
    ensures ReadBytes(input, at, max).Done? ==>
              ReadBytes(input, at, max).next == at + 4 + |ReadBytes(input, at, max).value|
  {}

  /** Group and operation id are read first. */
  lemma OutgoingHead(input: Bytes, at: nat)
    ensures var first := ReadBytes(input, at, 1024);
            && (first.Fail? ==> ReadOutgoing(input, at) == Fail(first.error))
            && (first.Done? && ReadBytes(input, first.next, 28).Fail? ==>
                  ReadOutgoing(input, at) == Fail(ReadBytes(input, first.next, 28).error))
            && (first.Done? && ReadBytes(input, first.next, 28).Done?
                && (first.value == [] || |first.value| > 1024 || !OperationIdOk(ReadBytes(input, first.next, 28).value)) ==>
                  ReadOutgoing(input, at) == Fail(InvalidInput))
  {}

  /** Then the epoch, the plaintext and the ciphertext. */
  lemma OutgoingTail(input: Bytes, at: nat)
    requires var first := ReadBytes(input, at, 1024);
             && first.Done? && ReadBytes(input, first.next, 28).Done?
             && Bounded(first.value, 1024) && OperationIdOk(ReadBytes(input, first.next, 28).value)
    ensures ReadOutgoing(input, at).Fail? ==> ReadOutgoing(input, at).error == InvalidWireMessage
  {
    var epoch := ReadU64(input, ReadBytes(input, ReadBytes(input, at, 1024).next, 28).next);
    if epoch.Done? {
      FieldIsBounded(input, epoch.next, MAX_APPLICATION_BYTES);
      var plaintext := ReadBytes(input, epoch.next, MAX_APPLICATION_BYTES);
      if plaintext.Done? {
        FieldIsBounded(input, plaintext.next, MAX_WIRE_BYTES);
      }
    }
  }

  /** A record of an outgoing message is an invalid input in that case, and an invalid message when anything else is wrong. */
  lemma OutgoingErrors(input: Bytes, at: nat)
    ensures ReadOutgoing(input, at).Fail? ==>
              ReadOutgoing(input, at).error == if BadRouting(input, at) then InvalidInput else InvalidWireMessage
  {
    BadRoutingMeans(input, at);
    OutgoingHead(input, at);
    FieldIsBounded(input, at, 1024);
    var first := ReadBytes(input, at, 1024);
    if first.Done? {
      FieldIsBounded(input, first.next, 28);
      if ReadBytes(input, first.next, 28).Done? && !BadRouting(input, at) {
        OutgoingTail(input, at);
      }
    }
  }

  lemma FieldIsBounded(input: Bytes, at: nat, max: nat)
    ensures ReadBytes(input, at, max).Done? ==> |ReadBytes(input, at, max).value| <= max
    ensures ReadBytes(input, at, max).Fail? ==> ReadBytes(input, at, max).error == InvalidWireMessage
  {}

  /** Every other record is an invalid message when anything is wrong with it. */
  lemma RecordErrors(input: Bytes, at: nat)
    ensures ReadValue(input, at).Fail? ==> ReadValue(input, at).error == InvalidWireMessage
    ensures ReadPending(input, at).Fail? ==> ReadPending(input, at).error == InvalidWireMessage
  {}

  /** The last record that is read of a section that is refused, or a key that is there twice. */
  ghost predicate SectionFails<T>(read: Reader<T>, input: Bytes, error: MlsError) {
    error == InvalidWireMessage || exists at: nat :: read(input, at) == Fail(error)
  }

  lemma {:induction false} SectionErrors<T>(
    read: Reader<T>, input: Bytes, at: nat, count: nat, sofar: map<Bytes, T>)
    requires ReadSection(read, input, at, count, sofar).Fail?
    ensures SectionFails(read, input, ReadSection(read, input, at, count, sofar).error)
    decreases count
  {
    if read(input, at).Done? {
      var e := read(input, at);
      if e.value.key !in sofar {
        SectionErrors(read, input, e.next, count - 1, sofar[e.value.key := e.value.record]);
      }
    }
  }

  /**
   A plaintext that is refused is an invalid message, except for an empty device id and for the group and the
   operation id of an outgoing message.
   */
  lemma DecodeErrors(input: Bytes)
    requires Decode(input).Err?
    ensures EmptyIdentity(input) ==> Decode(input).error == InvalidInput
    ensures Decode(input).error == InvalidWireMessage
            || (Decode(input).error == InvalidInput
                && (EmptyIdentity(input) || exists at: nat :: BadRouting(input, at)))
  {
    FieldMeans(input, 8, 1024, []);
    if Version(input) != 0 && ReadBytes(input, 8, 1024).Done? && !EmptyIdentity(input) {
      assert ReadBytes(input, 8, 1024).value != [];
      SectionsErr(input);
    }
  }

  /** What of a state stands behind the identity, for a readable identity. */
  ghost predicate Headed(input: Bytes) {
    && Version(input) != 0 && ReadBytes(input, 8, 1024).Done? && ReadBytes(input, 8, 1024).value != []
    && var key := ReadBytes(input, ReadBytes(input, 8, 1024).next, 128);
    key.Done? && |key.value| == 32
  }

  ghost function ValuesOf(input: Bytes): Parsed<map<Bytes, Bytes>>
    requires Headed(input)
  {
    var count := ReadCount(input, ReadBytes(input, ReadBytes(input, 8, 1024).next, 128).next, 100000);
    if count.Fail? then Fail(count.error) else ReadSection(ReadValue, input, count.next, count.value, map[])
  }

  lemma HeadErrors(input: Bytes)
    requires Version(input) != 0 && ReadBytes(input, 8, 1024).Done? && ReadBytes(input, 8, 1024).value != []
    requires !Headed(input)
    ensures ReadState(input) == Fail(InvalidWireMessage)
  {
    FieldIsBounded(input, ReadBytes(input, 8, 1024).next, 128);
  }

  lemma BehindHead(input: Bytes)
    requires Headed(input)
    ensures match ValuesOf(input)
            case Fail(error) => ReadState(input) == Fail(error)
            case Done(_, d) =>
              match ReadPendingSection(Version(input), input, d)
              case Fail(error) => ReadState(input) == Fail(error)
              case Done(_, e) =>
                match ReadOutgoingSection(Version(input), input, e)
                case Fail(error) => ReadState(input) == Fail(error)
                case Done(_, _) => ReadState(input).Done?
  {}

  lemma SectionsErr(input: Bytes)
    requires Version(input) != 0 && ReadBytes(input, 8, 1024).Done? && ReadBytes(input, 8, 1024).value != []
    requires Decode(input).Err?
    ensures Decode(input).error == InvalidWireMessage
            || (Decode(input).error == InvalidInput && exists at: nat :: BadRouting(input, at))
  {
    if !Headed(input) {
      HeadErrors(input);
    } else {
      BehindHead(input);
      var count := ReadCount(input, ReadBytes(input, ReadBytes(input, 8, 1024).next, 128).next, 100000);
      if ValuesOf(input).Fail? {
        if count.Done? {
          ValueErrors(input, count.next, count.value);
        }
      } else {
        var d := ValuesOf(input).next;
        TailErrors(input, d);
        if ReadPendingSection(Version(input), input, d).Done? {
          TailErrors(input, ReadPendingSection(Version(input), input, d).next);
        }
      }
    }
  }

  lemma ValueErrors(input: Bytes, at: nat, count: nat)
    requires ReadSection(ReadValue, input, at, count, map[]).Fail?
    ensures ReadSection(ReadValue, input, at, count, map[]).error == InvalidWireMessage
  {
    SectionErrors(ReadValue, input, at, count, map[]);
    forall p: nat | ReadValue(input, p).Fail? ensures ReadValue(input, p).error == InvalidWireMessage {
      RecordErrors(input, p);
    }
  }

  lemma TailErrors(input: Bytes, at: nat)
    ensures var pending := ReadPendingSection(Version(input), input, at);
            pending.Fail? ==> pending.error == InvalidWireMessage
    ensures var outgoing := ReadOutgoingSection(Version(input), input, at);
            outgoing.Fail? ==> outgoing.error == InvalidWireMessage
                               || (outgoing.error == InvalidInput && exists p: nat :: BadRouting(input, p))
  {
    var count := ReadCount(input, at, 1000);
    if Version(input) >= 2 && count.Done? && ReadSection(ReadPending, input, count.next, count.value, map[]).Fail? {
      SectionErrors(ReadPending, input, count.next, count.value, map[]);
      forall p: nat | ReadPending(input, p).Fail? ensures ReadPending(input, p).error == InvalidWireMessage {
        RecordErrors(input, p);
      }
    }
    if Version(input) >= 3 && count.Done? && ReadSection(ReadOutgoing, input, count.next, count.value, map[]).Fail? {
      SectionErrors(ReadOutgoing, input, count.next, count.value, map[]);
      forall p: nat | ReadOutgoing(input, p).Fail?
        ensures ReadOutgoing(input, p).error == if BadRouting(input, p) then InvalidInput else InvalidWireMessage
      {
        OutgoingErrors(input, p);
      }
    }
  }
}
