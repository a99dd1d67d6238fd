/**
 Receipts of received messages and staged outgoing messages of one device, kept beside the MLS
 ratchets so that they survive a crash together. Cryptography is a parameter: what a ciphertext
 opens to, and what a plaintext is sealed to.
 */
module Staging {
  import opened Common
  import opened Bytes
  import opened MlsGroup
  import opened StateFormat

  /** What a ciphertext of a group stands for. Only a ciphertext of the group's epoch can be processed. */
  datatype Opened =
    | Refused(error: MlsError)
    | Handshake(epoch: nat)
    | Message(epoch: nat, plaintext: Bytes, credential: Bytes, signatureKey: Bytes)

  datatype Crypto = Crypto(open: (Bytes, Bytes) -> Opened, seal: (Bytes, nat, Bytes) -> Bytes)

  datatype Cipher = Cipher(group: Bytes, wire: Bytes)

  /** `consumed` are the ciphertexts whose ratchet secret is used up; `sealed` counts encryptions. */
  datatype Device = Device(
    groups: map<Bytes, Group>, consumed: set<Cipher>, sealed: nat,
    pending: map<Bytes, Application>, outgoing: map<Bytes, Outgoing>)

  function EpochNumber(g: Group): u64 {
    Epoch(g) % U64_LIMIT
  }

  /** `application_receipt_key`: the length of the group id, the group id, the sequence. */
  function ReceiptKey(group: Bytes, sequence: u64): (key: Bytes)
    requires Bounded(group, MAX_GROUP_ID_BYTES)
    ensures |key| == |group| + 12
  {
    Field(group) + U64(sequence)
  }

  function LoadGroup(d: Device, group: Bytes): Result<Group> {
    if !Bounded(group, MAX_GROUP_ID_BYTES) then Err(InvalidInput)
    else if group !in d.groups then Err(MissingState)
    else Ok(d.groups[group])
  }

  function ToApplication(m: Opened): Application
    requires m.Message?
  {
    Application(m.plaintext, m.credential, m.signatureKey, m.epoch % U64_LIMIT)
  }

  /** Whether OpenMLS processes a ciphertext, using up its secret. */
  predicate Processes(c: Crypto, d: Device, group: Bytes, wire: Bytes) {
    && Bounded(wire, MAX_WIRE_BYTES)
    && LoadGroup(d, group).Ok?
    && !c.open(group, wire).Refused?
    && c.open(group, wire).epoch == Epoch(d.groups[group])
    && Cipher(group, wire) !in d.consumed
  }

  function Decrypted(c: Crypto, d: Device, group: Bytes, wire: Bytes): Device {
    if Processes(c, d, group, wire) then d.(consumed := d.consumed + {Cipher(group, wire)}) else d
  }

  function DecryptResult(c: Crypto, d: Device, group: Bytes, wire: Bytes): Result<Application> {
    if !Bounded(wire, MAX_WIRE_BYTES) then Err(InvalidInput)
    else match LoadGroup(d, group)
      case Err(error) => Err(error)
      case Ok(g) =>
        match c.open(group, wire)
        case Refused(error) => Err(error)
        case Handshake(epoch) =>
          if Processes(c, d, group, wire) then Err(UnexpectedMessageClass) else Err(CryptographicFailure)
        case Message(_, plaintext, _, _) =>
          if !Processes(c, d, group, wire) then Err(CryptographicFailure)
          else if |plaintext| > MAX_APPLICATION_BYTES then Err(InvalidWireMessage)
          else Ok(ToApplication(c.open(group, wire)))
  }

  datatype Op =
    | StageOp(group: Bytes, sequence: u64, wire: Bytes)
    | ClearOp(group: Bytes, sequence: u64)
    | SendOp(group: Bytes, operation: Bytes, plaintext: Bytes)
    | DropOp(operation: Bytes)
    | RegroupOp(groups: map<Bytes, Group>)

  /** Why a message is not decrypted for staging, before its ciphertext is looked at. */
  function StageProblem(d: Device, group: Bytes, sequence: u64): Option<MlsError> {
    if sequence == 0 || !Bounded(group, MAX_GROUP_ID_BYTES) then Some(InvalidInput)
    else if ReceiptKey(group, sequence) !in d.pending && |d.pending| >= MAX_PENDING_APPLICATIONS
    then Some(StateConflict)
    else None
  }

  function StageResult(c: Crypto, d: Device, group: Bytes, sequence: u64, wire: Bytes): Result<Application> {
    if StageProblem(d, group, sequence).Some? then Err(StageProblem(d, group, sequence).value)
    else if ReceiptKey(group, sequence) in d.pending then Ok(d.pending[ReceiptKey(group, sequence)])
    else DecryptResult(c, d, group, wire)
  }

  function Staged(c: Crypto, d: Device, group: Bytes, sequence: u64, wire: Bytes): Device {
    if StageProblem(d, group, sequence).Some? || ReceiptKey(group, sequence) in d.pending then d
    else
      var d' := Decrypted(c, d, group, wire);
      match DecryptResult(c, d, group, wire)
      case Err(_) => d'
      case Ok(application) => d'.(pending := d.pending[ReceiptKey(group, sequence) := application])
  }

  function Cleared(d: Device, group: Bytes, sequence: u64): Device {
    if Bounded(group, MAX_GROUP_ID_BYTES) then d.(pending := d.pending - {ReceiptKey(group, sequence)}) else d
  }

  function EncryptProblem(d: Device, group: Bytes): Option<MlsError> {
    match LoadGroup(d, group)
    case Err(error) => Some(error)
    case Ok(g) => if g.pending.Some? then Some(StateConflict) else None
  }

  function NewOutgoing(c: Crypto, d: Device, group: Bytes, operation: Bytes, plaintext: Bytes): Outgoing
    requires EncryptProblem(d, group) == None
  {
    Outgoing(group, operation, EpochNumber(d.groups[group]), plaintext, c.seal(group, d.sealed, plaintext))
  }

  function SendResult(c: Crypto, d: Device, group: Bytes, operation: Bytes, plaintext: Bytes): Result<Outgoing> {
    if !OperationIdOk(operation) || !Bounded(plaintext, MAX_APPLICATION_BYTES) then Err(InvalidInput)
    else if operation in d.outgoing then
      var existing := d.outgoing[operation];
      if existing.group != group || existing.plaintext != plaintext then Err(StateConflict) else Ok(existing)
    else if |d.outgoing| >= MAX_PENDING_OUTGOING then Err(StateConflict)
    else if EncryptProblem(d, group).Some? then Err(EncryptProblem(d, group).value)
    else Ok(NewOutgoing(c, d, group, operation, plaintext))
  }

  function Sent(c: Crypto, d: Device, group: Bytes, operation: Bytes, plaintext: Bytes): Device {
    match SendResult(c, d, group, operation, plaintext)
    case Err(_) => d
    case Ok(o) =>
      if operation in d.outgoing then d
      else d.(outgoing := d.outgoing[operation := o], sealed := d.sealed + 1)
  }

  function Dropped(d: Device, operation: Bytes): Device {
    if OperationIdOk(operation) then d.(outgoing := d.outgoing - {operation}) else d
  }

  function Step(c: Crypto, d: Device, op: Op): Device {
    match op
    case StageOp(group, sequence, wire) => Staged(c, d, group, sequence, wire)
    case ClearOp(group, sequence) => Cleared(d, group, sequence)
    case SendOp(group, operation, plaintext) => Sent(c, d, group, operation, plaintext)
    case DropOp(operation) => Dropped(d, operation)
    case RegroupOp(groups) => d.(groups := groups)
  }

  function Run(c: Crypto, d: Device, ops: seq<Op>): Device
    decreases |ops|
  {
    if ops == [] then d else Step(c, Run(c, d, ops[..|ops| - 1]), ops[|ops| - 1])
  }

  /** A new device. */
  function NewDevice(): Device {
    Device(map[], {}, 0, map[], map[])
  }
}
