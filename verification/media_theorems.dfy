/** What the cached room states mean, how they evolve, and what the envelope relay lets through. */
module MediaTheorems {
  import opened Common
  import opened MediaRooms

  // ---------------------------------------------------------------- cached state and presence agree

  ghost predicate RoomOk(s: Server, channel: ChannelId) {
    if channel in s.rooms then
      var room := s.rooms[channel];
      && Active(s, channel) != {}
      && room.devices == Ordered(Active(s, channel))
      && room.leader == room.devices[0]
      && room.epoch >= 1 && room.membership >= 1
    else Active(s, channel) == {}
  }

  ghost predicate Consistent(s: Server) {
    forall channel :: RoomOk(s, channel)
  }

  lemma SomeElement(s: seq<nat>)
    requires s != []
    ensures Elements(s) != {}
  {
    assert s[0] in Elements(s);
  }

  lemma OrderedEmpty(ids: set<nat>)
    ensures Ordered(ids) == [] <==> ids == {}
  {
    if Ordered(ids) != [] {
      SomeElement(Ordered(ids));
    }
  }

  /** The leader of a room is its least active device. */
  lemma LeaderIsLeast(s: Server, channel: ChannelId, device: DeviceId)
    requires RoomOk(s, channel) && channel in s.rooms && device in Active(s, channel)
    ensures s.rooms[channel].leader in Active(s, channel) && s.rooms[channel].leader <= device
  {
    var devices := s.rooms[channel].devices;
    assert device in Elements(devices) && devices[0] in Elements(devices);
    var i :| 0 <= i < |devices| && devices[i] == device;
  }

  /** Who is active in a channel depends on the sockets in that channel only. */
  lemma ActiveFrame(s: Server, t: Server, channel: ChannelId)
    requires s.allowed == t.allowed
    requires forall socket, device :: InRoom(s.presence, socket, channel, device) <==> InRoom(t.presence, socket, channel, device)
    ensures Active(s, channel) == Active(t, channel)
  {
    forall d ensures d in Active(s, channel) <==> d in Active(t, channel) {
      if d in Active(s, channel) {
        var socket :| InRoom(s.presence, socket, channel, d);
        assert InRoom(t.presence, socket, channel, d);
      }
      if d in Active(t, channel) {
        var socket :| InRoom(t.presence, socket, channel, d);
        assert InRoom(s.presence, socket, channel, d);
      }
    }
  }

  /** The cached states of all channels but some agree with presence. */
  ghost predicate ConsistentBut(s: Server, except: set<ChannelId>) {
    forall channel :: channel !in except ==> RoomOk(s, channel)
  }

  lemma NextRoomOk(s: Server, channel: ChannelId, force: bool)
    requires Active(s, channel) != {}
    requires channel in s.rooms ==> s.rooms[channel].epoch >= 1 && s.rooms[channel].membership >= 1
    ensures RoomOk(Emitted(s, channel, force), channel)
  {
    OrderedEmpty(Active(s, channel));
    ActiveFrame(s, Emitted(s, channel, force), channel);
  }

  /** Emitting a room repairs it and touches no other. */
  lemma EmitRepairs(s: Server, channel: ChannelId, force: bool, except: set<ChannelId>)
    requires ConsistentBut(s, except)
    requires channel in s.rooms ==> s.rooms[channel].epoch >= 1 && s.rooms[channel].membership >= 1
    ensures ConsistentBut(Emitted(s, channel, force), except - {channel})
  {
    var t := Emitted(s, channel, force);
    OrderedEmpty(Active(s, channel));
    forall c | c !in except - {channel} ensures RoomOk(t, c) {
      ActiveFrame(s, t, c);
      if c == channel {
        if Active(s, channel) != {} {
          NextRoomOk(s, channel, force);
        }
      } else {
        assert RoomOk(s, c);
      }
    }
  }

  ghost predicate CountersOk(s: Server) {
    forall c :: c in s.rooms ==> s.rooms[c].epoch >= 1 && s.rooms[c].membership >= 1
  }

  lemma EmitCounters(s: Server, channel: ChannelId, force: bool)
    requires CountersOk(s)
    ensures CountersOk(Emitted(s, channel, force))
  {
    OrderedEmpty(Active(s, channel));
  }

  lemma ConsistentCounters(s: Server)
    requires Consistent(s)
    ensures CountersOk(s)
  {
    forall c | c in s.rooms ensures s.rooms[c].epoch >= 1 && s.rooms[c].membership >= 1 {
      assert RoomOk(s, c);
    }
  }

  /** Changing one socket's presence upsets only the channel it leaves and the one it enters. */
  lemma PresenceChange(s: Server, t: Server, socket: SocketId, touched: set<ChannelId>)
    requires Consistent(s) && t.rooms == s.rooms && t.allowed == s.allowed
    requires forall other :: other != socket ==> (other in s.presence <==> other in t.presence)
    requires forall other :: other != socket && other in s.presence ==> s.presence[other] == t.presence[other]
    requires forall c, d :: c !in touched ==> (InRoom(s.presence, socket, c, d) <==> InRoom(t.presence, socket, c, d))
    ensures ConsistentBut(t, touched)
  {
    forall c | c !in touched ensures RoomOk(t, c) {
      assert RoomOk(s, c);
      forall other, d ensures InRoom(s.presence, other, c, d) <==> InRoom(t.presence, other, c, d) {
        if other == socket {
          assert InRoom(s.presence, socket, c, d) <==> InRoom(t.presence, socket, c, d);
        }
      }
      ActiveFrame(s, t, c);
    }
  }

  lemma JoinKeeps(s: Server, socket: SocketId, channel: ChannelId)
    requires Consistent(s)
    ensures Consistent(Joined(s, socket, channel))
  {
    if JoinProblem(s, socket, channel) == None {
      var previous := s.presence[socket].channel;
      var moved := Moved(s, socket, Some(channel));
      ConsistentCounters(s);
      if previous == Some(channel) || previous == None {
        PresenceChange(s, moved, socket, {channel});
        EmitRepairs(moved, channel, false, {channel});
      } else {
        PresenceChange(s, moved, socket, {previous.value, channel});
        EmitRepairs(moved, previous.value, false, {previous.value, channel});
        EmitCounters(moved, previous.value, false);
        EmitRepairs(Emitted(moved, previous.value, false), channel, false, {channel});
      }
    }
  }

  lemma LeaveKeeps(s: Server, socket: SocketId)
    requires Consistent(s)
    ensures Consistent(Left(s, socket))
  {
    if socket in s.presence {
      var previous := s.presence[socket].channel;
      var moved := Moved(s, socket, None);
      ConsistentCounters(s);
      if previous.Some? {
        PresenceChange(s, moved, socket, {previous.value});
        EmitRepairs(moved, previous.value, false, {previous.value});
      } else {
        PresenceChange(s, moved, socket, {});
      }
    }
  }

  lemma DisconnectKeeps(s: Server, socket: SocketId)
    requires Consistent(s)
    ensures Consistent(Disconnected(s, socket))
  {
    if socket in s.presence {
      var previous := s.presence[socket].channel;
      var gone := s.(presence := s.presence - {socket});
      ConsistentCounters(s);
      if previous.Some? {
        PresenceChange(s, gone, socket, {previous.value});
        EmitRepairs(gone, previous.value, false, {previous.value});
      } else {
        PresenceChange(s, gone, socket, {});
      }
    }
  }

  lemma ConnectKeeps(s: Server, socket: SocketId, device: Option<DeviceId>)
    requires Consistent(s)
    ensures Consistent(Connected(s, socket, device))
  {
    PresenceChange(s, Connected(s, socket, device), socket, {});
  }

  lemma RelayKeeps(s: Server, socket: SocketId, e: Envelope)
    requires Consistent(s)
    ensures Consistent(Relayed(s, socket, e))
  {
    var t := Relayed(s, socket, e);
    forall c ensures RoomOk(t, c) {
      ActiveFrame(s, t, c);
      assert RoomOk(s, c);
    }
  }

  lemma StepKeeps(s: Server, op: Op)
    requires Consistent(s)
    ensures Consistent(Step(s, op))
  {
    match op {
      case ConnectOp(socket, device) => ConnectKeeps(s, socket, device);
      case JoinOp(socket, channel) => JoinKeeps(s, socket, channel);
      case LeaveOp(socket) => LeaveKeeps(s, socket);
      case DisconnectOp(socket) => DisconnectKeeps(s, socket);
      case RelayOp(socket, envelope) => RelayKeeps(s, socket, envelope);
    }
  }

  /**
   After any requests a room state exists exactly when the channel has active devices, and it
   lists exactly those in increasing order, led by the least.
   */
  lemma {:induction false} RunKeeps(s: Server, ops: seq<Op>)
    requires Consistent(s)
    ensures Consistent(Run(s, ops))
  {
    if ops != [] {
      RunKeeps(s, ops[..|ops| - 1]);
      StepKeeps(Run(s, ops[..|ops| - 1]), ops[|ops| - 1]);
    }
  }

  function Fresh(allowed: set<DeviceId>, voice: set<ChannelId>): Server {
    Server(map[], map[], allowed, voice)
  }

  /** A server that has just started, and any requests. */
  lemma FromTheStart(allowed: set<DeviceId>, voice: set<ChannelId>, ops: seq<Op>)
    ensures Consistent(Run(Fresh(allowed, voice), ops))
  {
    RunKeeps(Fresh(allowed, voice), ops);
  }

  // ---------------------------------------------------------------- deleting a channel

  /** Deleting a channel keeps the agreement exactly when nobody is active in it. */
  lemma DeletionLeavesStaleRoom(s: Server, channel: ChannelId)
    requires Consistent(s)
    ensures Consistent(Deleted(s, channel)) <==> Active(s, channel) == {}
  {
    var t := Deleted(s, channel);
    assert RoomOk(s, channel);
    assert Active(t, channel) == {} by {
      forall socket, d ensures !InRoom(t.presence, socket, channel, d) {}
    }
    assert channel in t.rooms <==> Active(s, channel) != {};
    if Active(s, channel) == {} {
      forall c ensures RoomOk(t, c) {
        assert RoomOk(s, c);
        if c != channel {
          forall socket, d ensures InRoom(s.presence, socket, c, d) <==> InRoom(t.presence, socket, c, d) {}
          ActiveFrame(s, t, c);
        }
      }
    } else {
      assert !RoomOk(t, channel);
    }
  }

  /** Nobody is in a channel that cannot be joined any more. */
  ghost predicate Abandoned(s: Server, channel: ChannelId) {
    channel !in s.voice
    && forall socket :: socket in s.presence ==> s.presence[socket].channel != Some(channel)
  }

  lemma StaleStep(s: Server, op: Op, channel: ChannelId)
    requires Abandoned(s, channel)
    ensures Abandoned(Step(s, op), channel)
    ensures channel in s.rooms <==> channel in Step(s, op).rooms
    ensures channel in s.rooms ==> Step(s, op).rooms[channel] == s.rooms[channel]
  {
    match op {
      case ConnectOp(socket, device) =>
      case JoinOp(socket, target) =>
      case LeaveOp(socket) =>
      case DisconnectOp(socket) =>
      case RelayOp(socket, envelope) =>
    }
  }

  /** The room state of a channel deleted while in use is never removed. */
  lemma {:induction false} StaleRoomStays(s: Server, ops: seq<Op>, channel: ChannelId)
    requires Abandoned(s, channel)
    ensures Abandoned(Run(s, ops), channel)
    ensures channel in s.rooms <==> channel in Run(s, ops).rooms
    ensures channel in s.rooms ==> Run(s, ops).rooms[channel] == s.rooms[channel]
  {
    if ops != [] {
      StaleRoomStays(s, ops[..|ops| - 1], channel);
      StaleStep(Run(s, ops[..|ops| - 1]), ops[|ops| - 1], channel);
    }
  }

  /**
   From the start of the server: deleting a channel in use, and only such a deletion, leaves its room state behind,
   and no later requests ever change or remove it.
   */
  lemma DeletionIsForever(
    allowed: set<DeviceId>, voice: set<ChannelId>, before: seq<Op>, channel: ChannelId, after: seq<Op>)
    ensures var s := Run(Fresh(allowed, voice), before);
            var t := Run(Deleted(s, channel), after);
            && (channel in t.rooms <==> Active(s, channel) != {})
            && (channel in t.rooms ==> channel in s.rooms && t.rooms[channel] == s.rooms[channel])
            && Active(t, channel) == {}
  {
    var s := Run(Fresh(allowed, voice), before);
    FromTheStart(allowed, voice, before);
    assert RoomOk(s, channel);
    StaleRoomStays(Deleted(s, channel), after, channel);
    var t := Run(Deleted(s, channel), after);
    forall d ensures d !in Active(t, channel) {
      assert forall socket :: !InRoom(t.presence, socket, channel, d);
    }
  }

  /** One device joins channel 5 before the channel is deleted. */
  function JoinedFive(): seq<Op> {
    [ConnectOp(0, Some(1)), JoinOp(0, 5)]
  }

  lemma FiveIsOccupied()
    ensures 1 in Active(Run(Fresh({1}, {5}), JoinedFive()), 5)
  {
    var s, ops := Fresh({1}, {5}), JoinedFive();
    assert ops[..1] == [ops[0]] && ops[..1][..0] == [];
    assert Run(s, ops[..1]) == Connected(s, 0, Some(1));
    var t := Run(s, ops);
    assert InRoom(t.presence, 0, 5, 1);
  }

  /** A concrete stale room: after the deletion channel 5 keeps its state, whatever happens then. */
  lemma RoomOfDeletedChannel(after: seq<Op>)
    ensures 5 in Run(Deleted(Run(Fresh({1}, {5}), JoinedFive()), 5), after).rooms
    ensures 5 !in Run(Deleted(Run(Fresh({1}, {5}), JoinedFive()), 5), after).voice
  {
    FiveIsOccupied();
    DeletionIsForever({1}, {5}, JoinedFive(), 5, after);
    StaleRoomStays(Deleted(Run(Fresh({1}, {5}), JoinedFive()), 5), after, 5);
  }

  // ---------------------------------------------------------------- how a room evolves while it is occupied

  /** One request: the same epoch keeps leader and devices, or the epoch is the next one with an empty ledger. */
  ghost predicate Evolves(r: Room, r': Room) {
    && r'.membership == r.membership + (if r'.devices != r.devices then 1 else 0)
    && (if r'.epoch == r.epoch
        then r'.leader == r.leader && Elements(r.devices) <= Elements(r'.devices)
             && LastOf(r, r.leader) <= LastOf(r', r.leader)
        else r'.epoch == r.epoch + 1 && r'.last == map[])
  }

  lemma NextRoomEvolves(r: Room, ids: seq<DeviceId>)
    requires ids != []
    ensures Evolves(r, NextRoom(Some(r), ids, false))
  {
    var r' := NextRoom(Some(r), ids, false);
    if r'.epoch == r.epoch {
      assert forall d :: d in r.devices ==> d in ids;
    }
  }

  lemma EmitEvolves(s: Server, emitted: ChannelId, channel: ChannelId)
    requires channel in s.rooms && channel in Emitted(s, emitted, false).rooms
    ensures Evolves(s.rooms[channel], Emitted(s, emitted, false).rooms[channel])
    ensures emitted != channel ==> Emitted(s, emitted, false).rooms[channel] == s.rooms[channel]
  {
    OrderedEmpty(Active(s, emitted));
    if emitted == channel {
      NextRoomEvolves(s.rooms[channel], Ordered(Active(s, channel)));
    }
  }

  lemma StepEvolves(s: Server, op: Op, channel: ChannelId)
    requires channel in s.rooms && channel in Step(s, op).rooms
    ensures Evolves(s.rooms[channel], Step(s, op).rooms[channel])
  {
    match op {
      case ConnectOp(socket, device) =>
      case JoinOp(socket, target) =>
        if JoinProblem(s, socket, target) == None {
          var previous := s.presence[socket].channel;
          var moved := Moved(s, socket, Some(target));
          if previous == Some(target) || previous == None {
            EmitEvolves(moved, target, channel);
          } else {
            if channel != target {
              EmitEvolves(moved, previous.value, channel);
            }
            EmitEvolves(Emitted(moved, previous.value, false), target, channel);
          }
        }
      case LeaveOp(socket) =>
        if socket in s.presence && s.presence[socket].channel.Some? {
          EmitEvolves(Moved(s, socket, None), s.presence[socket].channel.value, channel);
        }
      case DisconnectOp(socket) =>
        if socket in s.presence && s.presence[socket].channel.Some? {
          EmitEvolves(s.(presence := s.presence - {socket}), s.presence[socket].channel.value, channel);
        }
      case RelayOp(socket, envelope) =>
    }
  }

  /** The channel is occupied before, during and after a run. */
  ghost predicate Occupied(s: Server, ops: seq<Op>, channel: ChannelId) {
    forall i :: 0 <= i <= |ops| ==> channel in Run(s, ops[..i]).rooms
  }

  lemma OccupiedEarlier(s: Server, ops: seq<Op>, channel: ChannelId)
    requires Occupied(s, ops, channel)
    ensures channel in s.rooms && channel in Run(s, ops).rooms
    ensures ops != [] ==> Occupied(s, ops[..|ops| - 1], channel)
  {
    assert ops[..0] == [] && ops[..|ops|] == ops;
    if ops != [] {
      var earlier := ops[..|ops| - 1];
      forall i | 0 <= i <= |earlier| ensures channel in Run(s, earlier[..i]).rooms {
        assert earlier[..i] == ops[..i];
      }
    }
  }

  /** How many requests of a run changed the set of active devices. */
  ghost function Changes(s: Server, ops: seq<Op>, channel: ChannelId): nat
    requires Occupied(s, ops, channel)
    decreases |ops|
  {
    OccupiedEarlier(s, ops, channel);
    if ops == [] then 0
    else
      var earlier := ops[..|ops| - 1];
      OccupiedEarlier(s, earlier, channel);
      Changes(s, earlier, channel)
      + (if Run(s, earlier).rooms[channel].devices != Run(s, ops).rooms[channel].devices then 1 else 0)
  }

  /**
   While a room stays occupied its epoch never decreases; within one epoch the leader is constant
   and devices only join; and the membership sequence counts the changes of the device set.
   */
  lemma {:induction false} OccupancyEvolves(s: Server, ops: seq<Op>, channel: ChannelId)
    requires Occupied(s, ops, channel)
    ensures channel in s.rooms && channel in Run(s, ops).rooms
    ensures var r, r' := s.rooms[channel], Run(s, ops).rooms[channel];
            && r.epoch <= r'.epoch
            && (r.epoch == r'.epoch ==> r'.leader == r.leader && Elements(r.devices) <= Elements(r'.devices))
            && r'.membership == r.membership + Changes(s, ops, channel)
  {
    OccupiedEarlier(s, ops, channel);
    if ops != [] {
      var earlier := ops[..|ops| - 1];
      OccupancyEvolves(s, earlier, channel);
      StepEvolves(Run(s, earlier), ops[|ops| - 1], channel);
    }
  }

  lemma EmitRestarts(s: Server, emitted: ChannelId, channel: ChannelId)
    requires channel !in s.rooms && channel in Emitted(s, emitted, false).rooms
    ensures channel == emitted
    ensures var room := Emitted(s, emitted, false).rooms[channel];
            room.epoch == 1 && room.membership == 1 && room.last == map[]
  {
    OrderedEmpty(Active(s, emitted));
  }

  /** A room that starts or is occupied again starts at epoch 1, membership 1 and without used sequences. */
  lemma EpochsRestart(s: Server, op: Op, channel: ChannelId)
    requires channel !in s.rooms && channel in Step(s, op).rooms
    ensures var room := Step(s, op).rooms[channel];
            room.epoch == 1 && room.membership == 1 && room.last == map[]
  {
    match op {
      case ConnectOp(socket, device) =>
      case JoinOp(socket, target) =>
        if JoinProblem(s, socket, target) == None {
          var previous := s.presence[socket].channel;
          var moved := Moved(s, socket, Some(target));
          if previous == Some(target) || previous == None {
            EmitRestarts(moved, target, channel);
          } else {
            var between := Emitted(moved, previous.value, false);
            if channel in between.rooms {
              EmitRestarts(moved, previous.value, channel);
              EmitKeepsOther(between, target, channel);
            } else {
              EmitRestarts(between, target, channel);
            }
          }
        }
      case LeaveOp(socket) =>
        if socket in s.presence && s.presence[socket].channel.Some? {
          EmitRestarts(Moved(s, socket, None), s.presence[socket].channel.value, channel);
        }
      case DisconnectOp(socket) =>
        if socket in s.presence && s.presence[socket].channel.Some? {
          EmitRestarts(s.(presence := s.presence - {socket}), s.presence[socket].channel.value, channel);
        }
      case RelayOp(socket, envelope) =>
    }
  }

  lemma EmitKeepsOther(s: Server, emitted: ChannelId, channel: ChannelId)
    requires emitted != channel && channel in s.rooms
    ensures channel in Emitted(s, emitted, false).rooms
    ensures Emitted(s, emitted, false).rooms[channel] == s.rooms[channel]
  {
    OrderedEmpty(Active(s, emitted));
  }

  // ---------------------------------------------------------------- what the relay lets through

  /** The request relays an envelope in the channel. */
  ghost predicate Relays(s: Server, op: Op, channel: ChannelId) {
    op.RelayOp? && op.envelope.channel == channel && RelayProblem(s, op.socket, op.envelope) == None
  }

  /** The envelopes relayed in a channel, in order. */
  ghost function Trace(s: Server, ops: seq<Op>, channel: ChannelId): seq<Envelope>
    decreases |ops|
  {
    if ops == [] then []
    else
      var earlier, op := ops[..|ops| - 1], ops[|ops| - 1];
      Trace(s, earlier, channel) + (if Relays(Run(s, earlier), op, channel) then [op.envelope] else [])
  }

  /** By epoch, then by sequence. */
  predicate Before(a: Envelope, b: Envelope) {
    a.epoch < b.epoch || (a.epoch == b.epoch && a.sequence < b.sequence)
  }

  /** Nothing relayed so far is ahead of what the room has recorded. */
  ghost predicate Recorded(room: Room, e: Envelope) {
    e.epoch <= room.epoch
    && (e.epoch == room.epoch ==> e.sender == room.leader && e.sequence <= LastOf(room, room.leader))
  }

  lemma RecordedLater(room: Room, room': Room, e: Envelope)
    requires Recorded(room, e) && Evolves(room, room')
    ensures Recorded(room', e)
  {}

  ghost predicate AllRecorded(room: Room, trace: seq<Envelope>) {
    forall i :: 0 <= i < |trace| ==> Recorded(room, trace[i])
  }

  ghost predicate InOrder(trace: seq<Envelope>) {
    forall i, j :: 0 <= i < j < |trace| ==>
      Before(trace[i], trace[j]) && (trace[i].epoch == trace[j].epoch ==> trace[i].sender == trace[j].sender)
  }

  lemma TraceStep(s: Server, op: Op, channel: ChannelId, trace: seq<Envelope>)
    requires channel in s.rooms && channel in Step(s, op).rooms
    requires AllRecorded(s.rooms[channel], trace) && InOrder(trace)
    ensures var trace' := trace + (if Relays(s, op, channel) then [op.envelope] else []);
            AllRecorded(Step(s, op).rooms[channel], trace') && InOrder(trace')
  {
    var room, room' := s.rooms[channel], Step(s, op).rooms[channel];
    StepEvolves(s, op, channel);
    forall i | 0 <= i < |trace| ensures Recorded(room', trace[i]) {
      RecordedLater(room, room', trace[i]);
    }
    if Relays(s, op, channel) {
      var e := op.envelope;
      assert e.epoch == room.epoch && e.sender == room.leader && e.sequence > LastOf(room, room.leader);
      assert Recorded(room', e);
      forall i | 0 <= i < |trace| ensures Before(trace[i], e) && (trace[i].epoch == e.epoch ==> trace[i].sender == e.sender) {
        assert Recorded(room, trace[i]);
      }
    }
  }

  /**
   During one occupancy the relayed envelopes strictly increase by (epoch, sequence), so none is
   relayed twice, and those of one epoch all come from one sender.
   */
  lemma {:induction false} RelayedInOrder(s: Server, ops: seq<Op>, channel: ChannelId)
    requires Occupied(s, ops, channel)
    ensures channel in Run(s, ops).rooms
    ensures InOrder(Trace(s, ops, channel))
    ensures AllRecorded(Run(s, ops).rooms[channel], Trace(s, ops, channel))
  {
    OccupiedEarlier(s, ops, channel);
    if ops != [] {
      var earlier := ops[..|ops| - 1];
      RelayedInOrder(s, earlier, channel);
      TraceStep(Run(s, earlier), ops[|ops| - 1], channel, Trace(s, earlier, channel));
    }
  }

  /** Whoever relays is the leader of the room's present epoch, and both ends are listed members. */
  lemma RelayedBetweenMembers(s: Server, op: Op, channel: ChannelId)
    requires Consistent(s) && Relays(s, op, channel)
    ensures channel in s.rooms
    ensures var room, e := s.rooms[channel], op.envelope;
            && e.epoch == room.epoch && e.sender == room.leader && e.signed
            && e.sender in room.devices && e.recipient in room.devices
            && exists socket :: SpeaksFor(s.presence, socket, channel, e.recipient)
  {
    assert RoomOk(s, channel);
    var e := op.envelope;
    assert e.sender in Elements(Ordered(Active(s, channel))) && e.recipient in Elements(Ordered(Active(s, channel)));
    var socket :| InRoom(s.presence, socket, channel, e.recipient);
    var least := LeastSocket(s, socket, channel, e.recipient);
  }

  lemma {:induction false} LeastSocket(s: Server, socket: SocketId, channel: ChannelId, device: DeviceId)
    returns (least: SocketId)
    requires InRoom(s.presence, socket, channel, device)
    ensures SpeaksFor(s.presence, least, channel, device)
    decreases socket
  {
    if other: nat :| InRoom(s.presence, other, channel, device) && other < socket {
      least := LeastSocket(s, other, channel, device);
    } else {
      least := socket;
    }
  }
}
