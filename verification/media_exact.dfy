/**
 The media rooms told from the raw state: who is in which channel after a request, when the epoch of a room
 rotates, and exactly which envelopes are relayed.
 */
module MediaExact {
  import opened Checks
  import opened Common
  import opened MediaRooms
  import opened MediaTheorems

  // ---------------------------------------------------------------- presence

  function JoinRequirements(s: Server, socket: SocketId, channel: ChannelId): seq<Check<Problem>> {
    [Check(socket in s.presence ==> s.presence[socket].device.Some?, MediaDeviceRequired),
     Check(channel in s.voice, ChannelNotFound),
     Check(socket in s.presence, PresenceMissing)]
  }

  /** Only the rooms and the presence of the one socket may differ. */
  predicate OnlySocket(s: Server, t: Server, socket: SocketId) {
    && t.allowed == s.allowed && t.voice == s.voice && t.presence - {socket} == s.presence - {socket}
  }

  /** Joining puts the socket into the channel, with the device it had, when the requirements are met. */
  lemma JoinedExactly(s: Server, socket: SocketId, channel: ChannelId)
    ensures Answers(JoinRequirements(s, socket, channel), JoinProblem(s, socket, channel))
    ensures OnlySocket(s, Joined(s, socket, channel), socket)
    ensures JoinProblem(s, socket, channel).Some? ==> Joined(s, socket, channel) == s
    ensures JoinProblem(s, socket, channel) == None ==>
              && socket in s.presence && socket in Joined(s, socket, channel).presence
              && Joined(s, socket, channel).presence[socket] == Presence(s.presence[socket].device, Some(channel))
  {
    var r := JoinRequirements(s, socket, channel);
    InOrder3(r[0], r[1], r[2], JoinProblem(s, socket, channel));
    assert r == [r[0], r[1], r[2]];
  }

  /** Leaving takes the socket out of every channel, and disconnecting takes it away. */
  lemma LeftExactly(s: Server, socket: SocketId)
    ensures OnlySocket(s, Left(s, socket), socket) && OnlySocket(s, Disconnected(s, socket), socket)
    ensures socket !in Disconnected(s, socket).presence
    ensures socket in s.presence ==>
              && socket in Left(s, socket).presence
              && Left(s, socket).presence[socket] == Presence(s.presence[socket].device, None)
    ensures socket !in s.presence ==> Left(s, socket) == s && Disconnected(s, socket) == s
    ensures forall c, d :: !InRoom(Left(s, socket).presence, socket, c, d)
                           && !InRoom(Disconnected(s, socket).presence, socket, c, d)
  {}

  /** A new socket is in no channel; nothing else changes. */
  lemma ConnectedExactly(s: Server, socket: SocketId, device: Option<DeviceId>)
    requires socket !in s.presence
    ensures Connected(s, socket, device)
            == Server(s.presence[socket := Presence(device, None)], s.rooms, s.allowed, s.voice)
  {}

  /** Deleting a channel empties it, and keeps every other presence and every room. */
  lemma DeletedExactly(s: Server, channel: ChannelId, socket: SocketId)
    ensures var t := Deleted(s, channel);
            && t.voice == s.voice - {channel} && t.rooms == s.rooms && t.allowed == s.allowed
            && (socket in t.presence <==> socket in s.presence)
            && (socket in s.presence ==>
                  t.presence[socket] == Presence(
                    s.presence[socket].device,
                    if s.presence[socket].channel == Some(channel) then None else s.presence[socket].channel))
  {}

  // ---------------------------------------------------------------- rooms

  /** The leader is another one, or a device has left. */
  predicate Rotates(r: Room, r': Room) {
    r'.leader != r.leader || exists d :: d in r.devices && d !in r'.devices
  }

  /** The epoch and the ledger are new exactly when the room rotates; the membership counts every change. */
  predicate RenewedExactly(r: Room, r': Room) {
    && r'.membership == (if r'.devices == r.devices then r.membership else r.membership + 1)
    && if Rotates(r, r') then r'.epoch == r.epoch + 1 && r'.last == map[] else r'.epoch == r.epoch && r'.last == r.last
  }

  lemma EmitRenews(s: Server, emitted: ChannelId, channel: ChannelId)
    requires channel in s.rooms && channel in Emitted(s, emitted, false).rooms
    ensures RenewedExactly(s.rooms[channel], Emitted(s, emitted, false).rooms[channel])
    ensures emitted != channel ==> Emitted(s, emitted, false).rooms[channel] == s.rooms[channel]
  {
    OrderedEmpty(Active(s, emitted));
  }

  /** A forced state rotates, whoever is in the room. */
  lemma ForcedRotates(s: Server, channel: ChannelId)
    requires channel in s.rooms && Active(s, channel) != {}
    ensures var t := Emitted(s, channel, true);
            && channel in t.rooms && t.rooms[channel].epoch == s.rooms[channel].epoch + 1
            && t.rooms[channel].last == map[]
            && t.rooms[channel].membership
               == s.rooms[channel].membership + (if t.rooms[channel].devices == s.rooms[channel].devices then 0 else 1)
  {
    OrderedEmpty(Active(s, channel));
  }

  /** What any request but a relay does to a room that stays occupied. */
  lemma StepRenews(s: Server, op: Op, channel: ChannelId)
    requires channel in s.rooms && channel in Step(s, op).rooms && !op.RelayOp?
    ensures RenewedExactly(s.rooms[channel], Step(s, op).rooms[channel])
  {
    match op {
      case ConnectOp(socket, device) =>
      case JoinOp(socket, target) =>
        if JoinProblem(s, socket, target) == None {
          var previous := s.presence[socket].channel;
          var moved := Moved(s, socket, Some(target));
          if previous == Some(target) || previous == None {
            EmitRenews(moved, target, channel);
          } else {
            if channel != target {
              EmitRenews(moved, previous.value, channel);
            }
            EmitRenews(Emitted(moved, previous.value, false), target, channel);
          }
        }
      case LeaveOp(socket) =>
        if socket in s.presence && s.presence[socket].channel.Some? {
          EmitRenews(Moved(s, socket, None), s.presence[socket].channel.value, channel);
        }
      case DisconnectOp(socket) =>
        if socket in s.presence && s.presence[socket].channel.Some? {
          EmitRenews(s.(presence := s.presence - {socket}), s.presence[socket].channel.value, channel);
        }
      case RelayOp(socket, envelope) =>
    }
  }

  // ---------------------------------------------------------------- relayed envelopes

  /** The presence of the socket is the sender in the channel, and nothing else. */
  predicate SentFrom(s: Server, socket: SocketId, e: Envelope) {
    socket in s.presence && s.presence[socket].device == Some(e.sender) && s.presence[socket].channel == Some(e.channel)
  }

  predicate InPresentEpoch(s: Server, e: Envelope) {
    e.channel in s.rooms && s.rooms[e.channel].epoch == e.epoch
  }

  /** Signed by the leader of the room, who is one of its devices. */
  predicate ByTheLeader(s: Server, e: Envelope) {
    && e.signed && e.channel in s.rooms
    && s.rooms[e.channel].leader == e.sender && e.sender in s.rooms[e.channel].devices
  }

  predicate ToAMember(s: Server, e: Envelope) {
    e.channel in s.rooms && e.recipient in s.rooms[e.channel].devices
  }

  /** Its sequence is at least 1 and above those of all earlier ones of the epoch. */
  predicate AboveAll(earlier: seq<Envelope>, e: Envelope) {
    e.sequence >= 1 && forall i :: 0 <= i < |earlier| && earlier[i].epoch == e.epoch ==> earlier[i].sequence < e.sequence
  }

  function RelayRequirements(s: Server, socket: SocketId, e: Envelope, earlier: seq<Envelope>): seq<Check<Problem>> {
    [Check(SentFrom(s, socket, e), SenderForbidden),
     Check(InPresentEpoch(s, e), StaleEpoch),
     Check(ByTheLeader(s, e), InvalidSignature),
     Check(ToAMember(s, e), RecipientForbidden),
     Check(AboveAll(earlier, e), Replayed)]
  }

  /** What was relayed in a channel since nobody was in it. */
  ghost function SinceEmpty(s: Server, ops: seq<Op>, channel: ChannelId): seq<Envelope>
    decreases |ops|
  {
    if ops == [] || channel !in Run(s, ops).rooms then []
    else
      var earlier, op := ops[..|ops| - 1], ops[|ops| - 1];
      SinceEmpty(s, earlier, channel) + (if Relays(Run(s, earlier), op, channel) then [op.envelope] else [])
  }

  /** Nobody is in the channel behind the first part of a run, and somebody all the time from then on. */
  ghost predicate OccupiedSince(s: Server, first: seq<Op>, ops: seq<Op>, channel: ChannelId) {
    && channel !in Run(s, first).rooms
    && forall i :: 0 < i <= |ops| ==> channel in Run(s, first + ops[..i]).rooms
  }

  lemma OccupiedBefore(s: Server, first: seq<Op>, ops: seq<Op>, channel: ChannelId)
    requires OccupiedSince(s, first, ops, channel) && ops != []
    ensures OccupiedSince(s, first, ops[..|ops| - 1], channel) && channel in Run(s, first + ops).rooms
  {
    var earlier := ops[..|ops| - 1];
    assert ops[..|ops|] == ops;
    forall i | 0 < i <= |earlier| ensures channel in Run(s, first + earlier[..i]).rooms {
      assert earlier[..i] == ops[..i];
    }
  }

  /** While somebody is in the channel all that time, this is the trace. */
  lemma {:induction false} TraceWhileOccupied(s: Server, first: seq<Op>, ops: seq<Op>, channel: ChannelId)
    requires OccupiedSince(s, first, ops, channel)
    ensures SinceEmpty(s, first + ops, channel) == Trace(Run(s, first), ops, channel)
  {
    if ops == [] {
      assert first + ops == first;
    } else {
      var n, all := |ops| - 1, first + ops;
      OccupiedBefore(s, first, ops, channel);
      TraceWhileOccupied(s, first, ops[..n], channel);
      RunJoins(s, first, ops[..n]);
      assert all[..|all| - 1] == first + ops[..n] && all[|all| - 1] == ops[n];
    }
  }

  lemma {:induction false} RunJoins(s: Server, first: seq<Op>, ops: seq<Op>)
    ensures Run(s, first + ops) == Run(Run(s, first), ops)
  {
    if ops == [] {
      assert first + ops == first;
    } else {
      var all := first + ops;
      assert all[..|all| - 1] == first + ops[..|ops| - 1] && all[|all| - 1] == ops[|ops| - 1];
      RunJoins(s, first, ops[..|ops| - 1]);
    }
  }

  /** The ledger of a room: nothing relayed in the present epoch is above it, and what it says was relayed. */
  ghost predicate LedgerIs(room: Room, trace: seq<Envelope>) {
    && (forall i :: 0 <= i < |trace| ==>
          trace[i].epoch <= room.epoch
          && (trace[i].epoch == room.epoch ==> trace[i].sequence <= LastOf(room, room.leader)))
    && (LastOf(room, room.leader) >= 1 ==>
          exists i :: 0 <= i < |trace| && trace[i].epoch == room.epoch
                      && trace[i].sequence == LastOf(room, room.leader))
  }

  lemma LedgerKept(room: Room, room': Room, trace: seq<Envelope>)
    requires LedgerIs(room, trace) && RenewedExactly(room, room')
    ensures LedgerIs(room', trace)
  {}

  lemma LedgerAdds(s: Server, socket: SocketId, e: Envelope, trace: seq<Envelope>)
    requires RelayProblem(s, socket, e) == None && LedgerIs(s.rooms[e.channel], trace)
    ensures LedgerIs(Relayed(s, socket, e).rooms[e.channel], trace + [e])
  {
    var room, room', longer := s.rooms[e.channel], Relayed(s, socket, e).rooms[e.channel], trace + [e];
    assert LastOf(room', room'.leader) == e.sequence && longer[|trace|] == e;
  }

  lemma LedgerStep(s: Server, op: Op, channel: ChannelId, trace: seq<Envelope>)
    requires channel in Step(s, op).rooms
    requires if channel in s.rooms then LedgerIs(s.rooms[channel], trace) else trace == []
    ensures LedgerIs(Step(s, op).rooms[channel], trace + if Relays(s, op, channel) then [op.envelope] else [])
  {
    assert trace + [] == trace;
    if channel !in s.rooms {
      EpochsRestart(s, op, channel);
    } else if Relays(s, op, channel) {
      LedgerAdds(s, op.socket, op.envelope, trace);
    } else if op.RelayOp? {
      assert Step(s, op).rooms[channel] == s.rooms[channel];
    } else {
      StepRenews(s, op, channel);
      LedgerKept(s.rooms[channel], Step(s, op).rooms[channel], trace);
    }
  }

  /** After any requests the ledger of a room is the highest sequence relayed in its epoch. */
  lemma {:induction false} LedgerAlways(s: Server, ops: seq<Op>, channel: ChannelId)
    requires channel !in s.rooms && channel in Run(s, ops).rooms
    ensures LedgerIs(Run(s, ops).rooms[channel], SinceEmpty(s, ops, channel))
  {
    var earlier := ops[..|ops| - 1];
    if channel in Run(s, earlier).rooms {
      LedgerAlways(s, earlier, channel);
    }
    LedgerStep(Run(s, earlier), ops[|ops| - 1], channel, SinceEmpty(s, earlier, channel));
  }

  lemma ActiveIsListed(s: Server, channel: ChannelId, device: DeviceId)
    requires Consistent(s) && channel in s.rooms
    ensures device in Active(s, channel) <==> device in s.rooms[channel].devices
  {
    assert RoomOk(s, channel);
    assert device in s.rooms[channel].devices <==> device in Elements(Ordered(Active(s, channel)));
  }

  lemma ReplayMeans(room: Room, trace: seq<Envelope>, e: Envelope)
    requires LedgerIs(room, trace) && e.epoch == room.epoch && e.sender == room.leader
    ensures e.sequence > LastOf(room, e.sender) <==> AboveAll(trace, e)
  {}

  /** The checks of the relay in a consistent state, the last of them on the ledger. */
  function LedgerRequirements(s: Server, socket: SocketId, e: Envelope): seq<Check<Problem>> {
    [Check(SentFrom(s, socket, e), SenderForbidden),
     Check(InPresentEpoch(s, e), StaleEpoch),
     Check(ByTheLeader(s, e), InvalidSignature),
     Check(ToAMember(s, e), RecipientForbidden),
     Check(e.channel in s.rooms ==>
             e.sequence > (if e.sender in s.rooms[e.channel].last then s.rooms[e.channel].last[e.sender] else 0), Replayed)]
  }

  function FirstOf(r: seq<Check<Problem>>): Option<Problem>
    requires |r| == 5
  {
    if !r[0].met then Some(r[0].error) else if !r[1].met then Some(r[1].error) else if !r[2].met then Some(r[2].error)
    else if !r[3].met then Some(r[3].error) else if !r[4].met then Some(r[4].error) else None
  }

  lemma RelayedByLedger(s: Server, socket: SocketId, e: Envelope)
    requires Consistent(s)
    ensures Answers(LedgerRequirements(s, socket, e), RelayProblem(s, socket, e))
  {
    if e.channel in s.rooms {
      ActiveIsListed(s, e.channel, e.sender);
      ActiveIsListed(s, e.channel, e.recipient);
    }
    assert RelayProblem(s, socket, e) == FirstOf(LedgerRequirements(s, socket, e));
    var r := LedgerRequirements(s, socket, e);
    InOrder5(r[0], r[1], r[2], r[3], r[4], RelayProblem(s, socket, e));
    assert r == [r[0], r[1], r[2], r[3], r[4]];
  }

  /**
   An envelope that arrives after any requests is relayed exactly when it is sent from a socket that is present as
   its sender in its channel, is of the room's epoch, is signed by the room's leader, goes to a device of the room
   and has a sequence of at least 1 above all those relayed in this epoch; else it gets the error of the first of
   these that fails.
   */
  lemma RelayedExactly(s: Server, ops: seq<Op>, socket: SocketId, e: Envelope)
    requires Consistent(s) && e.channel !in s.rooms
    ensures Answers(RelayRequirements(Run(s, ops), socket, e, SinceEmpty(s, ops, e.channel)),
                    RelayProblem(Run(s, ops), socket, e))
  {
    var t, trace := Run(s, ops), SinceEmpty(s, ops, e.channel);
    RunKeeps(s, ops);
    RelayedByLedger(t, socket, e);
    if InPresentEpoch(t, e) && ByTheLeader(t, e) {
      LedgerAlways(s, ops, e.channel);
      ReplayMeans(t.rooms[e.channel], trace, e);
    }
    SameFirst(LedgerRequirements(t, socket, e), RelayRequirements(t, socket, e, trace), RelayProblem(t, socket, e));
  }

  /** The last of five requirements matters only when the others are met. */
  lemma SameFirst(a: seq<Check<Problem>>, b: seq<Check<Problem>>, answer: Option<Problem>)
    requires |a| == |b| == 5 && a[..4] == b[..4] && a[4].error == b[4].error && Answers(a, answer)
    requires a[1].met && a[2].met ==> (a[4].met <==> b[4].met)
    ensures Answers(b, answer)
  {
    assert forall i :: 0 <= i < 4 ==> a[..4][i] == a[i] && b[..4][i] == b[i];
    if answer.Some? {
      var i: nat :| FirstUnmet(a, i) && a[i].error == answer.value;
      assert FirstUnmet(b, i);
    }
  }

  /** A relayed envelope is all that is recorded, and a refused one changes nothing. */
  lemma RelayRecords(s: Server, socket: SocketId, e: Envelope)
    ensures var t := Relayed(s, socket, e);
            if RelayProblem(s, socket, e).Some? then t == s
            else
              && e.channel in s.rooms && e.channel in t.rooms && t == s.(rooms := t.rooms)
              && t.rooms - {e.channel} == s.rooms - {e.channel}
              && var room := s.rooms[e.channel];
              t.rooms[e.channel]
              == Room(room.epoch, room.membership, room.leader, room.devices, room.last[e.sender := e.sequence])
  {}

  /** The first envelope of an epoch, with sequence 1, is relayed. */
  lemma FirstIsRelayed(s: Server, ops: seq<Op>, socket: SocketId, e: Envelope)
    requires Consistent(s) && e.channel !in s.rooms
    requires var t := Run(s, ops);
             SentFrom(t, socket, e) && InPresentEpoch(t, e) && ByTheLeader(t, e) && ToAMember(t, e)
    requires e.sequence == 1
    requires forall f :: f in SinceEmpty(s, ops, e.channel) ==> f.epoch < e.epoch
    ensures Relays(Run(s, ops), RelayOp(socket, e), e.channel)
  {
    RelayedExactly(s, ops, socket, e);
    var r := RelayRequirements(Run(s, ops), socket, e, SinceEmpty(s, ops, e.channel));
    assert r[0].met && r[1].met && r[2].met && r[3].met && r[4].met;
  }

  /** The socket of a recipient is the least of those that are present as the device in the channel. */
  lemma SpeaksForMeans(s: Server, socket: SocketId, channel: ChannelId, device: DeviceId)
    requires SpeaksFor(s.presence, socket, channel, device)
    ensures socket in s.presence && s.presence[socket] == Presence(Some(device), Some(channel))
    ensures forall other :: other in s.presence && other < socket ==>
              s.presence[other].device != Some(device) || s.presence[other].channel != Some(channel)
  {
    forall other | other in s.presence && other < socket
      ensures s.presence[other].device != Some(device) || s.presence[other].channel != Some(channel)
    {
      assert !InRoom(s.presence, other, channel, device);
    }
  }
}
