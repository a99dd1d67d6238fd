/**
 Encrypted media rooms: who is present in which voice channel, the cached state of every room, and
 the relay of key envelopes. Device and ban rows are fixed: `allowed` are the devices that are
 neither revoked nor banned. The per-sender sequence Map of a room is part of its value here;
 that it is shared by reference is the business of the class in media_service.dfy.
 */
module MediaRooms {
  import opened Common

  type SocketId = nat
  type DeviceId = nat
  type ChannelId = nat

  datatype Presence = Presence(device: Option<DeviceId>, channel: Option<ChannelId>)

  datatype Room = Room(
    epoch: nat, membership: nat, leader: DeviceId, devices: seq<DeviceId>, last: map<DeviceId, nat>)

  datatype Server = Server(
    presence: map<SocketId, Presence>, rooms: map<ChannelId, Room>,
    allowed: set<DeviceId>, voice: set<ChannelId>)

  datatype Envelope = Envelope(
    channel: ChannelId, epoch: nat, sender: DeviceId, recipient: DeviceId, sequence: nat, signed: bool)

  datatype Problem =
    | MediaDeviceRequired
    | ChannelNotFound
    | PresenceMissing
    | SenderForbidden
    | StaleEpoch
    | InvalidSignature
    | RecipientForbidden
    | Replayed

  // ---------------------------------------------------------------- active devices

  predicate InRoom(presence: map<SocketId, Presence>, socket: SocketId, channel: ChannelId, device: DeviceId) {
    socket in presence && presence[socket] == Presence(Some(device), Some(channel))
  }

  /** The allowed devices with a socket in the channel. */
  ghost function ActiveIn(
    presence: map<SocketId, Presence>, allowed: set<DeviceId>, channel: ChannelId): (devices: set<DeviceId>)
    ensures forall d :: d in devices <==> d in allowed && exists socket :: InRoom(presence, socket, channel, d)
  {
    set d | d in allowed && exists socket :: InRoom(presence, socket, channel, d)
  }

  ghost function Active(s: Server, channel: ChannelId): set<DeviceId> {
    ActiveIn(s.presence, s.allowed, channel)
  }

  /** The socket that speaks for a device in a channel: the least one. */
  ghost predicate SpeaksFor(
    presence: map<SocketId, Presence>, socket: SocketId, channel: ChannelId, device: DeviceId)
  {
    InRoom(presence, socket, channel, device)
    && forall other :: InRoom(presence, other, channel, device) ==> socket <= other
  }

  // ---------------------------------------------------------------- the cached state of a room

  /** The state that replaces `previous` when the sorted active devices are `ids`. */
  function NextRoom(previous: Option<Room>, ids: seq<DeviceId>, force: bool): Room
    requires ids != []
  {
    match previous
    case None => Room(1, 1, ids[0], ids, map[])
    case Some(p) =>
      var rotate := force || (exists d :: d in p.devices && d !in ids) || p.leader != ids[0];
      Room(p.epoch + (if rotate then 1 else 0), p.membership + (if p.devices != ids then 1 else 0),
           ids[0], ids, if rotate then map[] else p.last)
  }

  function RoomAt(s: Server, channel: ChannelId): Option<Room> {
    if channel in s.rooms then Some(s.rooms[channel]) else None
  }

  /** `emitMediaRoomState` */
  ghost function Emitted(s: Server, channel: ChannelId, force: bool): Server {
    if Active(s, channel) == {} then s.(rooms := s.rooms - {channel})
    else s.(rooms := s.rooms[channel := NextRoom(RoomAt(s, channel), Ordered(Active(s, channel)), force)])
  }

  ghost function EmittedIf(s: Server, channel: Option<ChannelId>): Server {
    match channel
    case None => s
    case Some(c) => Emitted(s, c, false)
  }

  // ---------------------------------------------------------------- requests

  function Moved(s: Server, socket: SocketId, channel: Option<ChannelId>): Server
    requires socket in s.presence
  {
    s.(presence := s.presence[socket := s.presence[socket].(channel := channel)])
  }

  function Connected(s: Server, socket: SocketId, device: Option<DeviceId>): Server {
    if socket in s.presence then s else s.(presence := s.presence[socket := Presence(device, None)])
  }

  function JoinProblem(s: Server, socket: SocketId, channel: ChannelId): Option<Problem> {
    if socket in s.presence && s.presence[socket].device == None then Some(MediaDeviceRequired)
    else if channel !in s.voice then Some(ChannelNotFound)
    else if socket !in s.presence then Some(PresenceMissing)
    else None
  }

  /** `voice:join`: the room that is left is emitted first, then the one that is entered. */
  ghost function Joined(s: Server, socket: SocketId, channel: ChannelId): Server {
    if JoinProblem(s, socket, channel).Some? then s
    else
      var previous := s.presence[socket].channel;
      var moved := Moved(s, socket, Some(channel));
      Emitted(if previous == Some(channel) then moved else EmittedIf(moved, previous), channel, false)
  }

  /** `voice:leave` */
  ghost function Left(s: Server, socket: SocketId): Server {
    if socket !in s.presence then s
    else EmittedIf(Moved(s, socket, None), s.presence[socket].channel)
  }

  ghost function Disconnected(s: Server, socket: SocketId): Server {
    if socket !in s.presence then s
    else EmittedIf(s.(presence := s.presence - {socket}), s.presence[socket].channel)
  }

  /** Deleting a channel clears the presence of its sockets without emitting the room. */
  function Deleted(s: Server, channel: ChannelId): Server {
    s.(voice := s.voice - {channel},
       presence := map socket | socket in s.presence ::
         if s.presence[socket].channel == Some(channel) then s.presence[socket].(channel := None)
         else s.presence[socket])
  }

  function LastOf(room: Room, device: DeviceId): nat {
    if device in room.last then room.last[device] else 0
  }

  /** Why an envelope sent from a socket is not relayed. The checks come in this order. */
  ghost function RelayProblem(s: Server, socket: SocketId, e: Envelope): Option<Problem> {
    if !InRoom(s.presence, socket, e.channel, e.sender) then Some(SenderForbidden)
    else if e.channel !in s.rooms || s.rooms[e.channel].epoch != e.epoch then Some(StaleEpoch)
    else if e.sender !in Active(s, e.channel) || s.rooms[e.channel].leader != e.sender || !e.signed
    then Some(InvalidSignature)
    else if e.recipient !in Active(s, e.channel) then Some(RecipientForbidden)
    else if e.sequence <= LastOf(s.rooms[e.channel], e.sender) then Some(Replayed)
    else None
  }

  /** `media:e2ee:envelope` */
  ghost function Relayed(s: Server, socket: SocketId, e: Envelope): Server {
    if RelayProblem(s, socket, e).Some? then s
    else
      var room := s.rooms[e.channel];
      s.(rooms := s.rooms[e.channel := room.(last := room.last[e.sender := e.sequence])])
  }

  datatype Op =
    | ConnectOp(socket: SocketId, device: Option<DeviceId>)
    | JoinOp(socket: SocketId, channel: ChannelId)
    | LeaveOp(socket: SocketId)
    | DisconnectOp(socket: SocketId)
    | RelayOp(socket: SocketId, envelope: Envelope)

  ghost function Step(s: Server, op: Op): Server {
    match op
    case ConnectOp(socket, device) => Connected(s, socket, device)
    case JoinOp(socket, channel) => Joined(s, socket, channel)
    case LeaveOp(socket) => Left(s, socket)
    case DisconnectOp(socket) => Disconnected(s, socket)
    case RelayOp(socket, envelope) => Relayed(s, socket, envelope)
  }

  ghost function Run(s: Server, ops: seq<Op>): Server
    decreases |ops|
  {
    if ops == [] then s else Step(Run(s, ops[..|ops| - 1]), ops[|ops| - 1])
  }
}
