/** Encrypted-history transfers between two devices of a user: tables, requests and their steps. */
module HistoryTransfer {
  import opened Common

  type TransferId = nat
  type ChannelId = nat
  type UserId = nat
  type DeviceId = nat
  type Time = nat
  type Blob = seq<nat>

  const MAX_CHUNKS: nat := 257
  const MAX_CHUNK_BYTES: nat := 256 * 1024
  const MAX_BYTES: nat := 64 * 1024 * 1024 + MAX_CHUNKS * (12 + 16)
  const DAY: nat := 24 * 60 * 60 * 1000

  datatype Status = Uploading | Ready | Consumed | Canceled | Expired

  /** What a transfer is bound to when it is created. */
  datatype Terms = Terms(
    channel: ChannelId, user: UserId, source: DeviceId, destination: DeviceId,
    first: nat, last: nat, events: nat, chunks: nat, bytes: nat, manifest: Blob, signature: Blob)

  datatype Transfer = Transfer(
    terms: Terms, status: Status, uploadedChunks: nat, uploadedBytes: nat, expiresAt: Time)

  datatype ChunkKey = ChunkKey(transfer: TransferId, index: nat)

  datatype Db = Db(transfers: map<TransferId, Transfer>, chunks: map<ChunkKey, Blob>)

  predicate Active(t: Transfer) {
    t.status == Uploading || t.status == Ready
  }

  /** Ends transfers: their chunks are deleted and their status is set. */
  function Ended(db: Db, ids: set<TransferId>, status: Status): Db {
    Db(map id | id in db.transfers :: if id in ids then db.transfers[id].(status := status) else db.transfers[id],
       map k | k in db.chunks && k.transfer !in ids :: db.chunks[k])
  }

  predicate Expirable(db: Db, id: TransferId, now: Time) {
    id in db.transfers && Active(db.transfers[id]) && db.transfers[id].expiresAt <= now
  }

  function ExpirableIds(db: Db, now: Time): set<TransferId> {
    set id | id in db.transfers && Expirable(db, id, now)
  }

  /** `compactExpiredHistoryRecoveryTransfers` */
  function Compacted(db: Db, now: Time): Db {
    Ended(db, ExpirableIds(db, now), Expired)
  }

  datatype Scope = OfDevice(device: DeviceId) | OfUser(user: UserId)

  predicate InScope(t: Transfer, scope: Scope) {
    match scope
    case OfDevice(device) => t.terms.source == device || t.terms.destination == device
    case OfUser(user) => t.terms.user == user
  }

  function ScopeIds(db: Db, scope: Scope): set<TransferId> {
    set id | id in db.transfers && Active(db.transfers[id]) && InScope(db.transfers[id], scope)
  }

  /** `cancelActiveHistoryRecoveryTransfers` */
  function CanceledAll(db: Db, scope: Scope): Db {
    Ended(db, ScopeIds(db, scope), Canceled)
  }

  // ---------------------------------------------------------------- requests

  datatype Reply =
    | Created
    | Existing
    | Finalized
    | AlreadyReady
    | Taken
    | AlreadyConsumed
    | CanceledNow
    | AlreadyCanceled
    | Served(body: Blob)
    | Failed(problem: Problem)

  datatype Problem =
    | InvalidTransfer
    | DestinationUnavailable
    | TransferConflict
    | TransferLimit
    | NotFound
    | InvalidChunk
    | DigestMismatch
    | ChunkConflict
    | SizeExceeded
    | NotUploading
    | Incomplete
    | NotReady
    | NotCancelable

  predicate TermsOk(t: Terms) {
    && t.destination != t.source
    && 1 <= t.first <= t.last
    && 1 <= t.events <= t.last - t.first + 1
    && 1 <= t.chunks <= MAX_CHUNKS
    && t.chunks <= t.bytes <= MAX_BYTES
    && 1 <= |t.manifest| <= 64 * 1024
  }

  predicate Blocks(db: Db, id: TransferId, t: Terms) {
    id in db.transfers && Active(db.transfers[id])
    && db.transfers[id].terms.destination == t.destination && db.transfers[id].terms.channel == t.channel
  }

  /** `available` says whether the destination device has a recovery key and is not revoked. */
  predicate HasActive(db: Db, t: Terms) {
    exists id :: id in db.transfers && Blocks(db, id, t)
  }

  function CreateReply(db: Db, id: TransferId, t: Terms, available: bool): Reply {
    if !TermsOk(t) then Failed(InvalidTransfer)
    else if !available then Failed(DestinationUnavailable)
    else if id in db.transfers then
      if db.transfers[id].terms == t then Existing else Failed(TransferConflict)
    else if HasActive(db, t) then Failed(TransferLimit)
    else Created
  }

  function CreatedDb(db: Db, id: TransferId, t: Terms, available: bool, now: Time): Db {
    if CreateReply(db, id, t, available) != Created then db
    else db.(transfers := db.transfers[id := Transfer(t, Uploading, 0, 0, now + 7 * DAY)])
  }

  /** The caller's own transfer, as its source or as its destination. */
  predicate Owns(db: Db, id: TransferId, user: UserId, device: DeviceId, destination: bool) {
    id in db.transfers && db.transfers[id].terms.user == user
    && (if destination then db.transfers[id].terms.destination else db.transfers[id].terms.source) == device
  }

  function PutReply(db: Db, id: TransferId, user: UserId, device: DeviceId, index: nat, body: Blob, digestOk: bool): Reply {
    if !Owns(db, id, user, device, false) then Failed(NotFound)
    else
      var t := db.transfers[id];
      var key := ChunkKey(id, index);
      if t.status != Uploading || index >= t.terms.chunks || |body| < 1 || |body| > MAX_CHUNK_BYTES
      then Failed(InvalidChunk)
      else if !digestOk then Failed(DigestMismatch)
      else if key in db.chunks then
        if db.chunks[key] == body then Existing else Failed(ChunkConflict)
      else if t.uploadedBytes + |body| > t.terms.bytes then Failed(SizeExceeded)
      else Created
  }

  function PutDb(db: Db, id: TransferId, user: UserId, device: DeviceId, index: nat, body: Blob, digestOk: bool): Db {
    if PutReply(db, id, user, device, index, body, digestOk) != Created then db
    else
      var t := db.transfers[id];
      Db(db.transfers[id := t.(uploadedChunks := t.uploadedChunks + 1, uploadedBytes := t.uploadedBytes + |body|)],
         db.chunks[ChunkKey(id, index) := body])
  }

  /** The indices of the stored chunks of a transfer. */
  function Indices(chunks: map<ChunkKey, Blob>, id: TransferId): set<nat> {
    set k | k in chunks && k.transfer == id :: k.index
  }

  /** SUM(size_bytes) over some chunks of a transfer. */
  ghost function SizeSum(chunks: map<ChunkKey, Blob>, id: TransferId, indices: set<nat>): nat
    requires indices <= Indices(chunks, id)
  {
    if indices == {} then 0
    else
      var i :| i in indices;
      |chunks[ChunkKey(id, i)]| + SizeSum(chunks, id, indices - {i})
  }

  ghost function StoredBytes(chunks: map<ChunkKey, Blob>, id: TransferId): nat {
    SizeSum(chunks, id, Indices(chunks, id))
  }

  ghost function FinalizeReply(db: Db, id: TransferId, user: UserId, device: DeviceId): Reply {
    if !Owns(db, id, user, device, false) then Failed(NotFound)
    else
      var t := db.transfers[id];
      if t.status == Ready then AlreadyReady
      else if t.status != Uploading then Failed(NotUploading)
      else if |Indices(db.chunks, id)| != t.terms.chunks || StoredBytes(db.chunks, id) != t.terms.bytes
      then Failed(Incomplete)
      else Finalized
  }

  ghost function FinalizedDb(db: Db, id: TransferId, user: UserId, device: DeviceId, now: Time): Db {
    if FinalizeReply(db, id, user, device) != Finalized then db
    else db.(transfers := db.transfers[id := db.transfers[id].(status := Ready, expiresAt := now + 30 * DAY)])
  }

  function GetReply(db: Db, id: TransferId, user: UserId, device: DeviceId, index: nat): Reply {
    if !Owns(db, id, user, device, true) then Failed(NotFound)
    else if db.transfers[id].status != Ready || ChunkKey(id, index) !in db.chunks || index >= db.transfers[id].terms.chunks
    then Failed(NotFound)
    else Served(db.chunks[ChunkKey(id, index)])
  }

  function ConsumeReply(db: Db, id: TransferId, user: UserId, device: DeviceId): Reply {
    if !Owns(db, id, user, device, true) then Failed(NotFound)
    else if db.transfers[id].status == Consumed then AlreadyConsumed
    else if db.transfers[id].status != Ready then Failed(NotReady)
    else Taken
  }

  function ConsumedDb(db: Db, id: TransferId, user: UserId, device: DeviceId): Db {
    if ConsumeReply(db, id, user, device) == Taken then Ended(db, {id}, Consumed) else db
  }

  function CancelReply(db: Db, id: TransferId, user: UserId, device: DeviceId): Reply {
    if !Owns(db, id, user, device, false) then Failed(NotFound)
    else if db.transfers[id].status == Canceled then AlreadyCanceled
    else if db.transfers[id].status != Uploading then Failed(NotCancelable)
    else CanceledNow
  }

  function CanceledDb(db: Db, id: TransferId, user: UserId, device: DeviceId): Db {
    if CancelReply(db, id, user, device) == CanceledNow then Ended(db, {id}, Canceled) else db
  }

  datatype Op =
    | CreateOp(id: TransferId, terms: Terms, available: bool, now: Time)
    | PutOp(id: TransferId, user: UserId, device: DeviceId, index: nat, body: Blob, digestOk: bool, now: Time)
    | FinalizeOp(id: TransferId, user: UserId, device: DeviceId, now: Time)
    | GetOp(id: TransferId, user: UserId, device: DeviceId, index: nat, now: Time)
    | ConsumeOp(id: TransferId, user: UserId, device: DeviceId, now: Time)
    | CancelOp(id: TransferId, user: UserId, device: DeviceId, now: Time)
    | CancelAllOp(scope: Scope)

  /** Every request of a client first expires what is due. */
  ghost function Entered(db: Db, op: Op): Db {
    if op.CancelAllOp? then db else Compacted(db, op.now)
  }

  ghost function Handled(db: Db, op: Op): Db {
    match op
    case CreateOp(id, terms, available, now) => CreatedDb(db, id, terms, available, now)
    case PutOp(id, user, device, index, body, digestOk, now) => PutDb(db, id, user, device, index, body, digestOk)
    case FinalizeOp(id, user, device, now) => FinalizedDb(db, id, user, device, now)
    case GetOp(id, user, device, index, now) => db
    case ConsumeOp(id, user, device, now) => ConsumedDb(db, id, user, device)
    case CancelOp(id, user, device, now) => CanceledDb(db, id, user, device)
    case CancelAllOp(scope) => CanceledAll(db, scope)
  }

  ghost function Step(db: Db, op: Op): Db {
    Handled(Entered(db, op), op)
  }

  ghost function Run(db: Db, ops: seq<Op>): Db
    decreases |ops|
  {
    if ops == [] then db else Step(Run(db, ops[..|ops| - 1]), ops[|ops| - 1])
  }

  function Empty(): Db {
    Db(map[], map[])
  }
}
