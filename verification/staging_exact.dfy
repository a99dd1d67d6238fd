/**
 Staging told from the fields of the device and of the message: which requirement refuses a message, what a
 receipt or an outgoing message says, and what a step changes.
 */
module StagingExact {
  import opened Bytes
  import opened Checks
  import opened Common
  import opened MlsGroup
  import opened StateFormat
  import opened Staging
  import opened StagingTheorems

  function ErrorOf<T>(r: Result<T>): Option<MlsError> {
    match r
    case Ok(_) => None
    case Err(error) => Some(error)
  }

  // ---------------------------------------------------------------- received messages

  /** The ciphertext is one of the group's present epoch, and its secret is unused. */
  predicate CanOpen(c: Crypto, d: Device, group: Bytes, wire: Bytes) {
    && group in d.groups && !c.open(group, wire).Refused?
    && c.open(group, wire).epoch == |d.groups[group].history| && Cipher(group, wire) !in d.consumed
  }

  /** What is asked of a ciphertext before its secret is used. */
  function OpenRequirements(c: Crypto, d: Device, group: Bytes, wire: Bytes): seq<Check<MlsError>> {
    var content := c.open(group, wire);
    [Check(1 <= |wire| <= 1048576, InvalidInput),
     Check(1 <= |group| <= 1024, InvalidInput),
     Check(group in d.groups, MissingState),
     Check(!content.Refused?, if content.Refused? then content.error else InvalidInput),
     Check(CanOpen(c, d, group, wire), CryptographicFailure)]
  }

  /** What is asked of its content. */
  function ContentRequirements(content: Opened): seq<Check<MlsError>> {
    [Check(content.Message?, UnexpectedMessageClass),
     Check(content.Message? ==> |content.plaintext| <= 262144, InvalidWireMessage)]
  }

  function DecryptRequirements(c: Crypto, d: Device, group: Bytes, wire: Bytes): seq<Check<MlsError>> {
    OpenRequirements(c, d, group, wire) + ContentRequirements(c.open(group, wire))
  }

  function OpenProblem(c: Crypto, d: Device, group: Bytes, wire: Bytes): Option<MlsError> {
    if !Bounded(wire, MAX_WIRE_BYTES) then Some(InvalidInput)
    else if LoadGroup(d, group).Err? then Some(LoadGroup(d, group).error)
    else if c.open(group, wire).Refused? then Some(c.open(group, wire).error)
    else if !Processes(c, d, group, wire) then Some(CryptographicFailure)
    else None
  }

  lemma OpenMeans(c: Crypto, d: Device, group: Bytes, wire: Bytes)
    ensures Answers(OpenRequirements(c, d, group, wire), OpenProblem(c, d, group, wire))
  {
    var r := OpenRequirements(c, d, group, wire);
    InOrder5(r[0], r[1], r[2], r[3], r[4], OpenProblem(c, d, group, wire));
    assert r == [r[0], r[1], r[2], r[3], r[4]];
  }

  /**
   A ciphertext is decrypted exactly when every requirement is met, and is refused with the error of the first
   that is not. The result says what the ciphertext opens to: its text, its sender and its epoch.
   */
  lemma DecryptedExactly(c: Crypto, d: Device, group: Bytes, wire: Bytes)
    ensures Answers(DecryptRequirements(c, d, group, wire), ErrorOf(DecryptResult(c, d, group, wire)))
    ensures DecryptResult(c, d, group, wire).Ok? ==>
              Repeats(DecryptResult(c, d, group, wire).value, c.open(group, wire))
  {
    var content, result := c.open(group, wire), DecryptResult(c, d, group, wire);
    OpenMeans(c, d, group, wire);
    if OpenProblem(c, d, group, wire) == None {
      var r := ContentRequirements(content);
      InOrder2(r[0], r[1], ErrorOf(result));
      assert r == [r[0], r[1]];
    }
    InTwoParts(OpenRequirements(c, d, group, wire), ContentRequirements(content), OpenProblem(c, d, group, wire),
               ErrorOf(result));
  }

  /** Its secret is used up exactly when the ciphertext could be opened, whatever its content is. */
  lemma UsedExactly(c: Crypto, d: Device, group: Bytes, wire: Bytes)
    ensures Decrypted(c, d, group, wire)
            == if 1 <= |wire| <= 1048576 && 1 <= |group| <= 1024 && CanOpen(c, d, group, wire)
               then Device(d.groups, d.consumed + {Cipher(group, wire)}, d.sealed, d.pending, d.outgoing)
               else d
  {}

  /** What is asked before a message without a receipt is decrypted for staging. */
  function StageRequirements(d: Device, group: Bytes, sequence: u64): seq<Check<MlsError>> {
    [Check(sequence >= 1, InvalidInput),
     Check(1 <= |group| <= 1024, InvalidInput),
     Check(|d.pending| < 1000, StateConflict)]
  }

  /** There is a receipt for this message already. */
  predicate Received(d: Device, group: Bytes, sequence: u64) {
    sequence >= 1 && 1 <= |group| <= 1024 && ReceiptKey(group, sequence) in d.pending
  }

  /** A message with a receipt is answered with that receipt, and nothing changes. */
  lemma ReceivedExactly(c: Crypto, d: Device, group: Bytes, sequence: u64, wire: Bytes)
    requires Received(d, group, sequence)
    ensures StageResult(c, d, group, sequence, wire) == Ok(d.pending[ReceiptKey(group, sequence)])
    ensures Step(c, d, StageOp(group, sequence, wire)) == d
  {}

  /** A message without one is staged exactly when staging and decryption ask nothing that it does not meet. */
  lemma StagedExactly(c: Crypto, d: Device, group: Bytes, sequence: u64, wire: Bytes)
    requires !Received(d, group, sequence)
    ensures Answers(StageRequirements(d, group, sequence) + DecryptRequirements(c, d, group, wire),
                    ErrorOf(StageResult(c, d, group, sequence, wire)))
    ensures StageResult(c, d, group, sequence, wire).Ok? ==>
              Repeats(StageResult(c, d, group, sequence, wire).value, c.open(group, wire))
  {
    var r := StageRequirements(d, group, sequence);
    InOrder3(r[0], r[1], r[2], StageProblem(d, group, sequence));
    assert r == [r[0], r[1], r[2]];
    DecryptedExactly(c, d, group, wire);
    InTwoParts(r, DecryptRequirements(c, d, group, wire), StageProblem(d, group, sequence),
               ErrorOf(StageResult(c, d, group, sequence, wire)));
  }

  /** Staging uses up the secret of a message exactly when the message had no receipt and its ciphertext was opened. */
  lemma StagedUses(c: Crypto, d: Device, group: Bytes, sequence: u64, wire: Bytes)
    requires !Received(d, group, sequence)
    ensures Step(c, d, StageOp(group, sequence, wire)).consumed
            == if sequence >= 1 && 1 <= |group| <= 1024 && |d.pending| < 1000 && 1 <= |wire| <= 1048576
                  && CanOpen(c, d, group, wire)
               then d.consumed + {Cipher(group, wire)} else d.consumed
  {
    UsedExactly(c, d, group, wire);
  }

  /** Nothing else changes but that a message that is staged has its receipt afterwards. */
  lemma StagedKeeps(c: Crypto, d: Device, group: Bytes, sequence: u64, wire: Bytes)
    requires !Received(d, group, sequence)
    ensures var d' := Step(c, d, StageOp(group, sequence, wire));
            && d'.groups == d.groups && d'.sealed == d.sealed && d'.outgoing == d.outgoing
            && match StageResult(c, d, group, sequence, wire)
               case Err(_) => d'.pending == d.pending
               case Ok(a) =>
                 1 <= |group| <= 1024 && d'.pending == d.pending[ReceiptKey(group, sequence) := a]
  {
    UsedExactly(c, d, group, wire);
  }

  /** Clearing removes the receipt of exactly this message. */
  lemma ClearedExactly(c: Crypto, d: Device, group: Bytes, sequence: u64, other: Bytes, number: u64)
    requires 1 <= |group| <= 1024 && 1 <= |other| <= 1024
    ensures var d' := Step(c, d, ClearOp(group, sequence));
            && d' == d.(pending := d'.pending)
            && (ReceiptKey(other, number) in d'.pending
                <==> ReceiptKey(other, number) in d.pending && !(other == group && number == sequence))
            && (ReceiptKey(other, number) in d'.pending ==>
                  d'.pending[ReceiptKey(other, number)] == d.pending[ReceiptKey(other, number)])
  {
    if ReceiptKey(other, number) == ReceiptKey(group, sequence) {
      ReceiptKeyInjective(other, number, group, sequence);
    }
  }

  // ---------------------------------------------------------------- outgoing messages

  /** Letters, digits, underscore and hyphen. */
  predicate IsUrlByte(b: byte) {
    ('a' as nat) <= b <= ('z' as nat) || ('A' as nat) <= b <= ('Z' as nat) || ('0' as nat) <= b <= ('9' as nat)
    || b == '_' as nat || b == '-' as nat
  }

  /** An operation id: "mlsop_" and 22 characters. */
  predicate IsOperationId(id: Bytes) {
    && |id| == 28
    && (forall i :: 0 <= i < 6 ==> id[i] == "mlsop_"[i] as nat)
    && forall i :: 6 <= i < 28 ==> IsUrlByte(id[i])
  }

  lemma OperationIdMeans(id: Bytes)
    ensures OperationIdOk(id) <==> IsOperationId(id)
  {
    if |id| == 28 {
      assert id[..6] == [id[0], id[1], id[2], id[3], id[4], id[5]];
      assert "mlsop_" == ['m', 'l', 's', 'o', 'p', '_'];
      assert forall i :: 6 <= i < 28 ==> (IsUrlByte(id[i]) <==> OperationByte(id[i]));
    }
  }

  /** What is asked of a message to send. */
  function FormRequirements(operation: Bytes, plaintext: Bytes): seq<Check<MlsError>> {
    [Check(IsOperationId(operation), InvalidInput), Check(1 <= |plaintext| <= 262144, InvalidInput)]
  }

  /** And of one with a new operation id. */
  function GroupRequirements(d: Device, group: Bytes): seq<Check<MlsError>> {
    [Check(1 <= |group| <= 1024, InvalidInput),
     Check(group in d.groups, MissingState),
     Check(group in d.groups ==> d.groups[group].pending == None, StateConflict)]
  }

  function NewRequirements(d: Device, group: Bytes, operation: Bytes, plaintext: Bytes): seq<Check<MlsError>> {
    FormRequirements(operation, plaintext) + ([Check(|d.outgoing| < 1000, StateConflict)] + GroupRequirements(d, group))
  }

  /** Nothing is sealed in a group that has a commit pending. */
  lemma EncryptExactly(d: Device, group: Bytes)
    ensures Answers(GroupRequirements(d, group), EncryptProblem(d, group))
  {
    var r := GroupRequirements(d, group);
    InOrder3(r[0], r[1], r[2], EncryptProblem(d, group));
    assert r == [r[0], r[1], r[2]];
  }

  function FormProblem(operation: Bytes, plaintext: Bytes): Option<MlsError> {
    if !OperationIdOk(operation) || !Bounded(plaintext, MAX_APPLICATION_BYTES) then Some(InvalidInput) else None
  }

  lemma FormMeans(operation: Bytes, plaintext: Bytes)
    ensures Answers(FormRequirements(operation, plaintext), FormProblem(operation, plaintext))
  {
    OperationIdMeans(operation);
    var r := FormRequirements(operation, plaintext);
    InOrder2(r[0], r[1], FormProblem(operation, plaintext));
    assert r == [r[0], r[1]];
  }

  /** An outgoing message: its group, its operation id, the epoch as a 64-bit number, its text and the sealed bytes. */
  predicate IsSealed(c: Crypto, d: Device, group: Bytes, operation: Bytes, plaintext: Bytes, o: Outgoing) {
    && group in d.groups && o.group == group && o.operation == operation && o.plaintext == plaintext
    && o.epoch == |d.groups[group].history| % 0x1_0000_0000_0000_0000
    && o.wire == c.seal(group, d.sealed, plaintext)
  }

  /**
   A message with a new operation id is sealed exactly when every requirement is met, and then the sealed message
   is kept under its operation id; otherwise nothing changes.
   */
  lemma SentExactly(c: Crypto, d: Device, group: Bytes, operation: Bytes, plaintext: Bytes)
    requires operation !in d.outgoing
    ensures Answers(NewRequirements(d, group, operation, plaintext), ErrorOf(SendResult(c, d, group, operation, plaintext)))
    ensures match SendResult(c, d, group, operation, plaintext)
            case Err(_) => Step(c, d, SendOp(group, operation, plaintext)) == d
            case Ok(o) =>
              && IsSealed(c, d, group, operation, plaintext, o)
              && Step(c, d, SendOp(group, operation, plaintext))
                 == Device(d.groups, d.consumed, d.sealed + 1, d.pending, d.outgoing[operation := o])
  {
    var result := ErrorOf(SendResult(c, d, group, operation, plaintext));
    FormMeans(operation, plaintext);
    EncryptExactly(d, group);
    var room := Check(|d.outgoing| < 1000, StateConflict);
    var full := if room.met then None else Some(StateConflict);
    if FormProblem(operation, plaintext) == None {
      assert Answers([room], full) by {
        assert !room.met ==> FirstUnmet([room], 0);
      }
      InTwoParts([room], GroupRequirements(d, group), full, result);
    }
    InTwoParts(FormRequirements(operation, plaintext), [room] + GroupRequirements(d, group),
               FormProblem(operation, plaintext), result);
  }

  /** A repeated operation id is answered with what is kept under it, when it is the same request, and changes nothing. */
  lemma ResentExactly(c: Crypto, d: Device, group: Bytes, operation: Bytes, plaintext: Bytes)
    requires operation in d.outgoing && IsOperationId(operation) && 1 <= |plaintext| <= 262144
    ensures var o := d.outgoing[operation];
            SendResult(c, d, group, operation, plaintext)
            == if o.group == group && o.plaintext == plaintext then Ok(o) else Err(StateConflict)
    ensures Step(c, d, SendOp(group, operation, plaintext)) == d
  {
    OperationIdMeans(operation);
  }

  /** Dropping removes exactly the message with this operation id. */
  lemma DroppedExactly(c: Crypto, d: Device, operation: Bytes)
    ensures Step(c, d, DropOp(operation))
            == if IsOperationId(operation) then Device(d.groups, d.consumed, d.sealed, d.pending, d.outgoing - {operation})
               else d
  {
    OperationIdMeans(operation);
  }

  /** Operations on groups leave receipts, outgoing messages and secrets alone; a new device has nothing at all. */
  lemma GroupsExactly(c: Crypto, d: Device, groups: map<Bytes, Group>)
    ensures Step(c, d, RegroupOp(groups)) == Device(groups, d.consumed, d.sealed, d.pending, d.outgoing)
    ensures NewDevice() == Device(map[], {}, 0, map[], map[])
  {}
}
