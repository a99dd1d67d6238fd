/** Receipts and staged outgoing messages over any operations of one device. */
module StagingTheorems {
  import opened Common
  import opened Bytes
  import opened MlsGroup
  import opened StateFormat
  import opened Staging

  // ---------------------------------------------------------------- receipt keys

  /** Different messages have different receipt keys. */
  lemma ReceiptKeyInjective(g: Bytes, s: u64, h: Bytes, t: u64)
    requires Bounded(g, MAX_GROUP_ID_BYTES) && Bounded(h, MAX_GROUP_ID_BYTES)
    requires ReceiptKey(g, s) == ReceiptKey(h, t)
    ensures g == h && s == t
  {
    var k, l := ReceiptKey(g, s), ReceiptKey(h, t);
    assert k[..4] == U32(|g|) && l[..4] == U32(|h|);
    U32RoundTrip(|g|);
    U32RoundTrip(|h|);
    assert k[4..4 + |g|] == g && l[4..4 + |h|] == h;
    assert k[4 + |g|..] == U64(s) && l[4 + |h|..] == U64(t);
    U64RoundTrip(s);
    U64RoundTrip(t);
  }

  // ---------------------------------------------------------------- limits

  /** What every operation checks itself about a receipt; nothing checks the sender's credential and key. */
  predicate ReceiptSound(key: Bytes, a: Application) {
    Bounded(key, MAX_GROUP_ID_BYTES + 12) && |a.plaintext| <= MAX_APPLICATION_BYTES
  }

  /** What every operation checks itself about an outgoing message; nothing checks the sealed message. */
  predicate OutgoingSound(key: Bytes, o: Outgoing) {
    && key == o.operation && OperationIdOk(o.operation)
    && Bounded(o.group, MAX_GROUP_ID_BYTES) && Bounded(o.plaintext, MAX_APPLICATION_BYTES)
  }

  ghost predicate PendingsSound(m: map<Bytes, Application>) {
    |m| <= MAX_PENDING_APPLICATIONS && forall k :: k in m ==> ReceiptSound(k, m[k])
  }

  ghost predicate OutgoingsSound(m: map<Bytes, Outgoing>) {
    |m| <= MAX_PENDING_OUTGOING && forall k :: k in m ==> OutgoingSound(k, m[k])
  }

  ghost predicate Sound(d: Device) {
    PendingsSound(d.pending) && OutgoingsSound(d.outgoing)
  }

  lemma ReceiptAdded(m: map<Bytes, Application>, k: Bytes, a: Application)
    requires PendingsSound(m) && |m| < MAX_PENDING_APPLICATIONS && ReceiptSound(k, a)
    ensures PendingsSound(m[k := a])
  {}

  lemma OutgoingAdded(m: map<Bytes, Outgoing>, o: Outgoing)
    requires OutgoingsSound(m) && |m| < MAX_PENDING_OUTGOING && OutgoingSound(o.operation, o)
    ensures OutgoingsSound(m[o.operation := o])
  {}

  lemma StageKeepsSound(c: Crypto, d: Device, group: Bytes, sequence: u64, wire: Bytes)
    requires PendingsSound(d.pending)
    ensures PendingsSound(Staged(c, d, group, sequence, wire).pending)
    ensures Staged(c, d, group, sequence, wire).outgoing == d.outgoing
  {
    if StageProblem(d, group, sequence) == None && ReceiptKey(group, sequence) !in d.pending {
      var result := DecryptResult(c, d, group, wire);
      if result.Ok? {
        ReceiptAdded(d.pending, ReceiptKey(group, sequence), result.value);
      }
    }
  }

  lemma SendKeepsSound(c: Crypto, d: Device, group: Bytes, operation: Bytes, plaintext: Bytes)
    requires OutgoingsSound(d.outgoing)
    ensures OutgoingsSound(Sent(c, d, group, operation, plaintext).outgoing)
    ensures Sent(c, d, group, operation, plaintext).pending == d.pending
  {
    var result := SendResult(c, d, group, operation, plaintext);
    if result.Ok? && operation !in d.outgoing {
      OutgoingAdded(d.outgoing, result.value);
    }
  }

  lemma RemovalCount<T>(m: map<Bytes, T>, k: Bytes)
    ensures |m - {k}| <= |m|
  {
    assert (m - {k}).Keys == m.Keys - {k};
  }

  lemma ReceiptRemoved(m: map<Bytes, Application>, k: Bytes)
    requires PendingsSound(m)
    ensures PendingsSound(m - {k})
  {
    RemovalCount(m, k);
  }

  lemma OutgoingRemoved(m: map<Bytes, Outgoing>, k: Bytes)
    requires OutgoingsSound(m)
    ensures OutgoingsSound(m - {k})
  {
    RemovalCount(m, k);
  }

  lemma ClearKeepsSound(c: Crypto, d: Device, group: Bytes, sequence: u64)
    requires Sound(d)
    ensures Sound(Step(c, d, ClearOp(group, sequence)))
  {
    if Bounded(group, MAX_GROUP_ID_BYTES) {
      ReceiptRemoved(d.pending, ReceiptKey(group, sequence));
    }
  }

  lemma DropKeepsSound(c: Crypto, d: Device, operation: Bytes)
    requires Sound(d)
    ensures Sound(Step(c, d, DropOp(operation)))
  {
    OutgoingRemoved(d.outgoing, operation);
  }

  /** Every operation keeps both maps within their limits, whatever the messages are. */
  lemma StepKeepsSound(c: Crypto, d: Device, op: Op)
    requires Sound(d)
    ensures Sound(Step(c, d, op))
  {
    match op {
      case StageOp(group, sequence, wire) => StageKeepsSound(c, d, group, sequence, wire);
      case ClearOp(group, sequence) => ClearKeepsSound(c, d, group, sequence);
      case SendOp(group, operation, plaintext) => SendKeepsSound(c, d, group, operation, plaintext);
      case DropOp(operation) => DropKeepsSound(c, d, operation);
      case RegroupOp(_) =>
    }
  }

  lemma {:induction false} RunKeepsSound(c: Crypto, d: Device, ops: seq<Op>)
    requires Sound(d)
    ensures Sound(Run(c, d, ops))
  {
    if ops != [] {
      RunKeepsSound(c, d, ops[..|ops| - 1]);
      StepKeepsSound(c, Run(c, d, ops[..|ops| - 1]), ops[|ops| - 1]);
    }
  }

  // ---------------------------------------------------------------- no ratchet step without its receipt

  /** The receipt of a message was cleared after the i-th operation. */
  ghost predicate ClearedAfter(ops: seq<Op>, i: nat, group: Bytes, sequence: u64) {
    exists l :: i < l < |ops| && ops[l] == ClearOp(group, sequence)
  }

  predicate HoldsReceipt(d: Device, key: Bytes, a: Application) {
    key in d.pending && d.pending[key] == a
  }

  predicate HoldsOutgoing(d: Device, operation: Bytes, o: Outgoing) {
    operation in d.outgoing && d.outgoing[operation] == o
  }

  /** A receipt with the very text, sender and epoch (as a 64-bit number) of a message. */
  predicate Repeats(a: Application, content: Opened) {
    && content.Message?
    && a.plaintext == content.plaintext && a.credential == content.credential
    && a.signatureKey == content.signatureKey && a.epoch == content.epoch % 0x1_0000_0000_0000_0000
  }

  predicate HoldsContent(d: Device, key: Bytes, content: Opened) {
    key in d.pending && Repeats(d.pending[key], content)
  }

  /** The message was staged as this one, and its receipt is there or was cleared afterwards. */
  ghost predicate Accounted(c: Crypto, d: Device, past: seq<Op>, x: Cipher, i: nat) {
    && i < |past| && past[i].StageOp? && past[i].group == x.group && past[i].wire == x.wire
    && Bounded(x.group, MAX_GROUP_ID_BYTES)
    && c.open(x.group, x.wire).Message?
    && (HoldsContent(d, ReceiptKey(x.group, past[i].sequence), c.open(x.group, x.wire))
        || ClearedAfter(past, i, x.group, past[i].sequence))
  }

  /** A ciphertext that yields no receipt: a handshake message, or a plaintext over the limit. */
  predicate NoReceipt(c: Crypto, x: Cipher) {
    var content := c.open(x.group, x.wire);
    content.Handshake? || (content.Message? && |content.plaintext| > MAX_APPLICATION_BYTES)
  }

  ghost predicate AllAccounted(c: Crypto, d: Device, past: seq<Op>) {
    forall x :: x in d.consumed && !NoReceipt(c, x) ==> exists i :: Accounted(c, d, past, x, i)
  }

  lemma StepKeepsReceipt(c: Crypto, d: Device, op: Op, group: Bytes, sequence: u64, a: Application)
    requires Bounded(group, MAX_GROUP_ID_BYTES) && op != ClearOp(group, sequence)
    requires HoldsReceipt(d, ReceiptKey(group, sequence), a)
    ensures HoldsReceipt(Step(c, d, op), ReceiptKey(group, sequence), a)
  {
    if op.ClearOp? && Bounded(op.group, MAX_GROUP_ID_BYTES)
       && ReceiptKey(op.group, op.sequence) == ReceiptKey(group, sequence) {
      ReceiptKeyInjective(op.group, op.sequence, group, sequence);
    }
  }

  /** A later step keeps a receipt accounted for. */
  lemma AccountedLater(c: Crypto, d: Device, past: seq<Op>, op: Op, x: Cipher, i: nat)
    requires Accounted(c, d, past, x, i)
    ensures Accounted(c, Step(c, d, op), past + [op], x, i)
  {
    var n := past[i].sequence;
    if ClearedAfter(past, i, x.group, n) {
      var l :| i < l < |past| && past[l] == ClearOp(x.group, n);
      assert (past + [op])[l] == ClearOp(x.group, n);
    } else if op == ClearOp(x.group, n) {
      assert (past + [op])[|past|] == ClearOp(x.group, n);
    } else {
      StepKeepsReceipt(c, d, op, x.group, n, d.pending[ReceiptKey(x.group, n)]);
    }
  }

  /** The step that uses up a secret leaves the receipt. */
  lemma AccountedNow(c: Crypto, d: Device, past: seq<Op>, op: Op, x: Cipher)
    requires x in Step(c, d, op).consumed && x !in d.consumed && !NoReceipt(c, x)
    ensures Accounted(c, Step(c, d, op), past + [op], x, |past|)
  {}

  /**
   After any operations a ciphertext whose secret is used up has its receipt beside it, or the receipt was
   cleared after it was made - except for contents that never get a receipt.
   */
  lemma {:induction false} RunAccounted(c: Crypto, past: seq<Op>)
    ensures AllAccounted(c, Run(c, NewDevice(), past), past)
  {
    if past != [] {
      var earlier, op := past[..|past| - 1], past[|past| - 1];
      var d := Run(c, NewDevice(), earlier);
      RunAccounted(c, earlier);
      assert past == earlier + [op];
      forall x | x in Step(c, d, op).consumed && !NoReceipt(c, x)
        ensures exists i :: Accounted(c, Step(c, d, op), past, x, i)
      {
        if x in d.consumed {
          var i :| Accounted(c, d, earlier, x, i);
          AccountedLater(c, d, earlier, op, x, i);
        } else {
          AccountedNow(c, d, earlier, op, x);
        }
      }
    }
  }

  /** The exception is real: a message over the limit is used up and leaves no receipt to replay. */
  lemma OversizedIsLost(c: Crypto, d: Device, group: Bytes, sequence: u64, wire: Bytes)
    requires StageProblem(d, group, sequence) == None && ReceiptKey(group, sequence) !in d.pending
    requires Processes(c, d, group, wire) && c.open(group, wire).Message?
    ensures var d' := Staged(c, d, group, sequence, wire);
            && Cipher(group, wire) in d'.consumed
            && (ReceiptKey(group, sequence) in d'.pending <==> !NoReceipt(c, Cipher(group, wire)))
            && (NoReceipt(c, Cipher(group, wire)) ==> StageResult(c, d', group, sequence, wire) == Err(CryptographicFailure))
  {}

  // ---------------------------------------------------------------- used-up secrets

  /** The step uses up the secret of a ciphertext. */
  predicate Decrypts(c: Crypto, d: Device, op: Op, x: Cipher) {
    x !in d.consumed && x in Step(c, d, op).consumed
  }

  /** Staging this ciphertext would decrypt it, were its secret not used up. */
  predicate Tries(c: Crypto, d: Device, sequence: u64, x: Cipher) {
    && StageProblem(d, x.group, sequence) == None && ReceiptKey(x.group, sequence) !in d.pending
    && Bounded(x.wire, MAX_WIRE_BYTES) && LoadGroup(d, x.group).Ok?
    && !c.open(x.group, x.wire).Refused? && c.open(x.group, x.wire).epoch == Epoch(d.groups[x.group])
  }

  lemma DecryptsMeans(c: Crypto, d: Device, op: Op, x: Cipher)
    ensures Decrypts(c, d, op, x)
            <==> op.StageOp? && x == Cipher(op.group, op.wire) && Tries(c, d, op.sequence, x) && x !in d.consumed
  {}

  lemma ConsumedStays(c: Crypto, d: Device, op: Op)
    ensures d.consumed <= Step(c, d, op).consumed
  {}

  // ---------------------------------------------------------------- what is held

  lemma StepKeepsOutgoing(c: Crypto, d: Device, op: Op, operation: Bytes, o: Outgoing)
    requires op != DropOp(operation) && HoldsOutgoing(d, operation, o)
    ensures HoldsOutgoing(Step(c, d, op), operation, o)
  {}

  /** A successful staging is held as the receipt it returned. */
  lemma StagedIsHeld(c: Crypto, d: Device, group: Bytes, sequence: u64, wire: Bytes)
    requires StageResult(c, d, group, sequence, wire).Ok?
    ensures Bounded(group, MAX_GROUP_ID_BYTES) && sequence > 0
    ensures HoldsReceipt(Staged(c, d, group, sequence, wire), ReceiptKey(group, sequence),
                         StageResult(c, d, group, sequence, wire).value)
  {}

  lemma SentIsHeld(c: Crypto, d: Device, group: Bytes, operation: Bytes, plaintext: Bytes)
    requires SendResult(c, d, group, operation, plaintext).Ok?
    ensures OperationIdOk(operation)
    ensures HoldsOutgoing(Sent(c, d, group, operation, plaintext), operation,
                          SendResult(c, d, group, operation, plaintext).value)
  {}
}
