/**
 The ordered MLS delivery service: tables, requests and the state step of every
 handler. The tables are those of server/src/db.js; a table with a primary key
 or UNIQUE columns is a map keyed by them, so the messages table is keyed by
 UNIQUE (channel_id, server_sequence).
 */
module Delivery {
  import opened Common

  type ChannelId = nat
  type UserId = nat
  type DeviceId = nat
  type OperationId = nat
  type EventId = nat
  type AttachmentId = nat
  type Time = nat

  /** A sequence counter starts at 1: the CHECK on mls_channel_state.next_sequence. */
  type Counter = x: nat | 1 <= x witness 1

  /** What an MLS wire message stands for. The server only stores and compares it. */
  datatype Wire =
    | CommitWire(author: DeviceId, nonce: nat, basis: seq<Wire>)
    | WelcomeWire(history: seq<Wire>)
    | OtherWire(content: seq<nat>)

  datatype Class = Proposal | Commit | Welcome | Application
  datatype Kind = Message | Edit | Delete | Reaction | Attachment

  datatype Position = Position(channel: ChannelId, sequence: nat)

  datatype MessageRow = MessageRow(
    operation: OperationId, messageClass: Class, acceptedEpoch: nat, parentEpoch: Option<nat>,
    user: UserId, device: DeviceId, recipient: Option<DeviceId>, wire: Wire, createdAt: Time)

  datatype EventRow = EventRow(
    at: Position, user: UserId, device: DeviceId, kind: Kind, target: Option<EventId>, acceptedEpoch: nat)

  datatype AttachmentRow = AttachmentRow(
    channel: ChannelId, event: Option<EventId>, user: UserId, device: DeviceId,
    expiresAt: Option<Time>, deleted: bool)

  datatype ChannelState = ChannelState(currentEpoch: nat, nextSequence: Counter, initializedBy: DeviceId)

  datatype Cursor = Cursor(delivered: nat, acknowledged: nat, acknowledgedEpoch: nat)

  datatype CursorKey = CursorKey(channel: ChannelId, device: DeviceId)

  datatype Db = Db(
    encrypted: set<ChannelId>,
    active: set<DeviceId>,
    enrolled: set<DeviceId>,
    messages: map<Position, MessageRow>,
    events: map<EventId, EventRow>,
    attachments: map<AttachmentId, AttachmentRow>,
    channels: map<ChannelId, ChannelState>,
    cursors: map<CursorKey, Cursor>)

  datatype EventRequest = EventRequest(
    eventId: EventId, kind: Kind, target: Option<EventId>, attachments: seq<AttachmentId>)

  datatype Submission = Submission(
    channel: ChannelId, user: UserId, device: DeviceId, isOwner: bool,
    operation: OperationId, messageClass: Class, acceptedEpoch: nat, parentEpoch: Option<nat>,
    recipient: Option<DeviceId>, wire: Wire, event: Option<EventRequest>, now: Time)

  datatype Error =
    | EncryptedChannelRequired
    | InvalidRecipient
    | InvalidEventRouting
    | OperationConflict
    | NotInitialized
    | EpochConflict(currentEpoch: nat, nextSequence: nat)
    | InvalidEventReference
    | ForbiddenEventMutation
    | DuplicateEvent
    | InvalidAttachmentReference
    | OwnerRequired
    | EnrollmentRequired
    | AcknowledgementConflict
    | AttachmentConflict

  datatype Reply =
    | Rejected(error: Error)
    | Accepted(at: Position, row: MessageRow, replayed: bool)

  // ---------------------------------------------------------------- messages

  predicate RecipientOk(active: set<DeviceId>, req: Submission) {
    if req.messageClass == Welcome then
      req.recipient.Some? && req.recipient.value in active
    else
      req.recipient == None
  }

  predicate EventShapeOk(e: EventRequest) {
    && |e.attachments| <= 10
    && |Elements(e.attachments)| == |e.attachments|
    && (e.kind in {Edit, Delete, Reaction} ==> e.target.Some?)
    && (e.kind == Attachment <==> e.attachments != [])
  }

  predicate RoutingOk(req: Submission) {
    if req.messageClass == Application then
      req.event.Some? && EventShapeOk(req.event.value)
    else
      req.event == None
  }

  /** The checks a submission meets before its transaction starts. */
  ghost predicate Prevalidated(db: Db, req: Submission) {
    req.channel in db.encrypted && RecipientOk(db.active, req) && RoutingOk(req)
  }

  /** UNIQUE (uploader_device_id, client_operation_id): row p belongs to this operation. */
  predicate IsOperation(db: Db, p: Position, device: DeviceId, operation: OperationId) {
    p in db.messages && db.messages[p].device == device && db.messages[p].operation == operation
  }

  ghost predicate OperationUsed(db: Db, device: DeviceId, operation: OperationId) {
    exists p :: IsOperation(db, p, device, operation)
  }

  /** The LEFT JOIN of a delivered message with its routed event. */
  predicate IsEventAt(db: Db, id: EventId, p: Position) {
    id in db.events && db.events[id].at == p
  }

  function LiveAttachments(db: Db, id: EventId): set<AttachmentId> {
    set a | a in db.attachments && db.attachments[a].event == Some(id) && !db.attachments[a].deleted
  }

  ghost function LinkedAttachments(db: Db, id: EventId): set<AttachmentId> {
    set a | a in db.attachments && db.attachments[a].event == Some(id)
  }

  predicate SameRow(row: MessageRow, req: Submission) {
    && row.messageClass == req.messageClass
    && row.acceptedEpoch == req.acceptedEpoch
    && row.parentEpoch == req.parentEpoch
    && row.recipient == req.recipient
    && row.wire == req.wire
  }

  /** What the handler compares when an operation id returns. */
  ghost predicate SameOperation(db: Db, p: Position, req: Submission)
    requires p in db.messages
  {
    && p.channel == req.channel
    && SameRow(db.messages[p], req)
    && match req.event
       case None => forall id :: !IsEventAt(db, id, p)
       case Some(e) =>
         && IsEventAt(db, e.eventId, p)
         && db.events[e.eventId].kind == e.kind
         && db.events[e.eventId].target == e.target
         && LiveAttachments(db, e.eventId) == Elements(e.attachments)
  }

  predicate EpochOk(state: ChannelState, req: Submission) {
    match req.messageClass
    case Commit => req.parentEpoch == Some(state.currentEpoch) && req.acceptedEpoch == state.currentEpoch + 1
    case Proposal => req.parentEpoch == Some(state.currentEpoch) && req.acceptedEpoch == state.currentEpoch
    case _ => req.parentEpoch == None && req.acceptedEpoch == state.currentEpoch
  }

  predicate TargetExists(events: map<EventId, EventRow>, channel: ChannelId, kind: Kind, target: EventId) {
    && target in events
    && events[target].at.channel == channel
    && (events[target].kind == Message || (kind != Edit && events[target].kind == Attachment))
  }

  predicate MayMutate(events: map<EventId, EventRow>, req: Submission, kind: Kind, target: EventId)
    requires target in events
  {
    && (kind == Edit ==> events[target].user == req.user)
    && (kind == Delete ==> events[target].user == req.user || req.isOwner)
  }

  /** The WHERE clause of the UPDATE that links an attachment to an event. */
  predicate Linkable(attachments: map<AttachmentId, AttachmentRow>, req: Submission, a: AttachmentId) {
    && a in attachments
    && var row := attachments[a];
    && row.channel == req.channel
    && row.user == req.user
    && row.device == req.device
    && row.event == None
    && !row.deleted
    && (row.expiresAt == None || row.expiresAt.value > req.now)
  }

  ghost function LinkAll(attachments: map<AttachmentId, AttachmentRow>, ids: set<AttachmentId>, event: EventId)
    : map<AttachmentId, AttachmentRow>
  {
    map a | a in attachments :: if a in ids then attachments[a].(event := Some(event)) else attachments[a]
  }

  function NewRow(req: Submission): MessageRow {
    MessageRow(req.operation, req.messageClass, req.acceptedEpoch, req.parentEpoch,
               req.user, req.device, req.recipient, req.wire, req.now)
  }

  function NewEvent(req: Submission, e: EventRequest, at: Position): EventRow {
    EventRow(at, req.user, req.device, e.kind, e.target, req.acceptedEpoch)
  }

  /** Why a fresh event cannot be stored, if it cannot. */
  ghost function EventProblem(db: Db, req: Submission): Option<Error>
  {
    match req.event
    case None => None
    case Some(e) =>
      if e.target.Some? && !TargetExists(db.events, req.channel, e.kind, e.target.value) then
        Some(InvalidEventReference)
      else if e.target.Some? && !MayMutate(db.events, req, e.kind, e.target.value) then
        Some(ForbiddenEventMutation)
      else if e.eventId in db.events then
        Some(DuplicateEvent)
      else if exists a :: a in e.attachments && !Linkable(db.attachments, req, a) then
        Some(InvalidAttachmentReference)
      else
        None
  }

  /** The answer to a submission, decided on the state before it. */
  ghost function Decide(db: Db, req: Submission): Reply
  {
    if req.channel !in db.encrypted then Rejected(EncryptedChannelRequired)
    else if !RecipientOk(db.active, req) then Rejected(InvalidRecipient)
    else if !RoutingOk(req) then Rejected(InvalidEventRouting)
    else if exists p :: IsOperation(db, p, req.device, req.operation) then
      var p :| IsOperation(db, p, req.device, req.operation);
      if SameOperation(db, p, req) then Accepted(p, db.messages[p], true) else Rejected(OperationConflict)
    else if req.channel !in db.channels then Rejected(NotInitialized)
    else
      var state := db.channels[req.channel];
      if !EpochOk(state, req) then Rejected(EpochConflict(state.currentEpoch, state.nextSequence))
      else match EventProblem(db, req)
           case Some(problem) => Rejected(problem)
           case None => Accepted(Position(req.channel, state.nextSequence), NewRow(req), false)
  }

  ghost function Stored(db: Db, req: Submission): Db
    requires req.channel in db.channels
  {
    var state := db.channels[req.channel];
    var at := Position(req.channel, state.nextSequence);
    db.(messages := db.messages[at := NewRow(req)],
        events := if req.event.Some? then db.events[req.event.value.eventId := NewEvent(req, req.event.value, at)]
                  else db.events,
        attachments := if req.event.Some?
                       then LinkAll(db.attachments, Elements(req.event.value.attachments), req.event.value.eventId)
                       else db.attachments,
        channels := db.channels[req.channel := state.(
            currentEpoch := if req.messageClass == Commit then req.acceptedEpoch else state.currentEpoch,
            nextSequence := state.nextSequence + 1)])
  }

  /** The state after a submission: stored when freshly accepted, otherwise untouched. */
  ghost function Submitted(db: Db, req: Submission): Db {
    var reply := Decide(db, req);
    if reply.Accepted? && !reply.replayed then Stored(db, req) else db
  }

  // ---------------------------------------------------------------- channel

  function InitializeError(db: Db, channel: ChannelId, device: DeviceId, isOwner: bool): Option<Error> {
    if channel !in db.encrypted then Some(EncryptedChannelRequired)
    else if channel in db.channels then None
    else if !isOwner then Some(OwnerRequired)
    else if device !in db.enrolled then Some(EnrollmentRequired)
    else None
  }

  function Initialized(db: Db, channel: ChannelId, device: DeviceId, isOwner: bool): Db {
    if InitializeError(db, channel, device, isOwner) == None && channel !in db.channels
    then db.(channels := db.channels[channel := ChannelState(0, 1, device)])
    else db
  }

  // ---------------------------------------------------------------- fetch and acknowledge

  datatype Delivered = Delivered(sequence: nat, row: MessageRow)

  predicate Addressed(row: MessageRow, device: DeviceId) {
    row.messageClass != Welcome || row.recipient == Some(device)
  }

  /** The entries of a channel with lo < sequence <= hi that a device may read, in order. */
  ghost function Visible(db: Db, channel: ChannelId, device: DeviceId, lo: nat, hi: nat): seq<Delivered> {
    if hi <= lo then []
    else
      var before := Visible(db, channel, device, lo, hi - 1);
      var p := Position(channel, hi);
      if p in db.messages && Addressed(db.messages[p], device)
      then before + [Delivered(hi, db.messages[p])]
      else before
  }

  function ClampLimit(requested: int): (limit: nat)
    ensures 1 <= limit <= 200
    ensures 1 <= requested <= 200 ==> limit == requested
  {
    if requested < 1 then 1 else if requested > 200 then 200 else requested
  }

  ghost function Page(db: Db, channel: ChannelId, device: DeviceId, after: nat, requested: int): seq<Delivered>
    requires channel in db.channels
  {
    var all := Visible(db, channel, device, after, db.channels[channel].nextSequence - 1);
    if |all| <= ClampLimit(requested) then all else all[..ClampLimit(requested)]
  }

  /** The `deliveredSequence` a page is answered with. */
  function EndOf(page: seq<Delivered>, after: nat): nat {
    if page == [] then after else page[|page| - 1].sequence
  }

  predicate CanFetch(db: Db, channel: ChannelId) {
    channel in db.encrypted && channel in db.channels
  }

  function MovedTo(cursors: map<CursorKey, Cursor>, key: CursorKey, delivered: nat): map<CursorKey, Cursor> {
    if key in cursors then
      cursors[key := cursors[key].(
        delivered := if cursors[key].delivered < delivered then delivered else cursors[key].delivered)]
    else
      cursors[key := Cursor(delivered, 0, 0)]
  }

  ghost function Fetched(db: Db, channel: ChannelId, device: DeviceId, after: nat, requested: int): Db
  {
    if CanFetch(db, channel) && Page(db, channel, device, after, requested) != [] then
      db.(cursors := MovedTo(db.cursors, CursorKey(channel, device),
                             EndOf(Page(db, channel, device, after, requested), after)))
    else db
  }

  predicate CanAcknowledge(db: Db, key: CursorKey, sequence: nat, epoch: nat) {
    && key.channel in db.channels
    && key in db.cursors
    && db.cursors[key].acknowledged <= sequence <= db.cursors[key].delivered
    && db.cursors[key].acknowledgedEpoch <= epoch <= db.channels[key.channel].currentEpoch
  }

  function Acknowledged(db: Db, key: CursorKey, sequence: nat, epoch: nat): Db {
    if CanAcknowledge(db, key, sequence, epoch) then
      db.(cursors := db.cursors[key := db.cursors[key].(acknowledged := sequence, acknowledgedEpoch := epoch)])
    else db
  }

  // ---------------------------------------------------------------- attachments and devices

  /** INSERT of a fresh attachment; an id that exists is answered without a change. */
  function Uploaded(db: Db, id: AttachmentId, channel: ChannelId, user: UserId, device: DeviceId,
                    expiresAt: Option<Time>): Db
  {
    if id in db.attachments then db
    else db.(attachments := db.attachments[id := AttachmentRow(channel, None, user, device, expiresAt, false)])
  }

  predicate Expired(row: AttachmentRow, now: Time) {
    !row.deleted && row.expiresAt.Some? && row.expiresAt.value <= now
  }

  /** The periodic sweep marks one expired attachment deleted. */
  function Swept(db: Db, id: AttachmentId, now: Time): Db {
    if id in db.attachments && Expired(db.attachments[id], now)
    then db.(attachments := db.attachments[id := db.attachments[id].(deleted := true)])
    else db
  }

  // ---------------------------------------------------------------- runs

  datatype Op =
    | InitializeOp(channel: ChannelId, device: DeviceId, isOwner: bool)
    | SubmitOp(req: Submission)
    | FetchOp(channel: ChannelId, device: DeviceId, after: nat, requested: int)
    | AcknowledgeOp(key: CursorKey, sequence: nat, epoch: nat)
    | UploadOp(id: AttachmentId, channel: ChannelId, user: UserId, device: DeviceId, expiresAt: Option<Time>)
    | SweepOp(id: AttachmentId, now: Time)
    | DevicesOp(active: set<DeviceId>, enrolled: set<DeviceId>)

  function QuietStep(db: Db, op: Op): Db
    requires !op.SubmitOp? && !op.FetchOp?
  {
    match op
    case InitializeOp(channel, device, isOwner) => Initialized(db, channel, device, isOwner)
    case AcknowledgeOp(key, sequence, epoch) => Acknowledged(db, key, sequence, epoch)
    case UploadOp(id, channel, user, device, expiresAt) => Uploaded(db, id, channel, user, device, expiresAt)
    case SweepOp(id, now) => Swept(db, id, now)
    case DevicesOp(active, enrolled) => db.(active := active, enrolled := enrolled)
  }

  ghost function Step(db: Db, op: Op): Db {
    if op.SubmitOp? then Submitted(db, op.req)
    else if op.FetchOp? then Fetched(db, op.channel, op.device, op.after, op.requested)
    else QuietStep(db, op)
  }

  /** The state after a whole run, one atomic handler after another. */
  ghost function Run(db: Db, ops: seq<Op>): Db {
    if ops == [] then db else Step(Run(db, ops[..|ops| - 1]), ops[|ops| - 1])
  }

  /** A server with encrypted channels and nothing delivered yet. */
  function Empty(encrypted: set<ChannelId>): Db {
    Db(encrypted, {}, {}, map[], map[], map[], map[], map[])
  }
}
