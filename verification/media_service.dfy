/** The media rooms as the server keeps them: two Maps in place, and sequence Maps shared by reference. */
module MediaService {
  import opened Common
  import opened MediaRooms

  /** `lastEnvelopeSequenceBySender`: successive states of a room share it until the epoch rotates. */
  class Ledger {
    var last: map<DeviceId, nat>

    constructor ()
      ensures last == map[]
    {
      last := map[];
    }
  }

  datatype State = State(
    epoch: nat, membership: nat, leader: DeviceId, devices: seq<DeviceId>, ledger: Ledger)

  datatype Member = Member(socket: SocketId, device: DeviceId)

  datatype Reply = Delivered(socket: SocketId) | Joined(room: Option<State>) | Done | Failed(problem: Problem)

  class Service {
    var presence: map<SocketId, Presence>
    var states: map<ChannelId, State>
    var voice: set<ChannelId>
    const allowed: set<DeviceId>

    ghost function Ledgers(): set<Ledger>
      reads this
    {
      set c | c in states :: states[c].ledger
    }

    /** No two rooms share a ledger. */
    ghost predicate Valid()
      reads this
    {
      forall c, d :: c in states && d in states && c != d ==> states[c].ledger != states[d].ledger
    }

    ghost function RoomValue(c: ChannelId): Room
      requires c in states
      reads this, Ledgers()
    {
      var state := states[c];
      Room(state.epoch, state.membership, state.leader, state.devices, state.ledger.last)
    }

    ghost function Value(): Server
      reads this, Ledgers()
    {
      Server(presence, map c | c in states :: RoomValue(c), allowed, voice)
    }

    constructor (allowed: set<DeviceId>, voice: set<ChannelId>)
      ensures Valid() && Value() == Server(map[], map[], allowed, voice)
    {
      this.allowed, this.voice := allowed, voice;
      presence, states := map[], map[];
    }

    /** The loop over all sockets: for every device in the channel the least of its sockets. */
    method SocketsByDevice(channel: ChannelId) returns (byDevice: map<DeviceId, SocketId>)
      ensures forall d :: d in byDevice ==> SpeaksFor(presence, byDevice[d], channel, d)
      ensures forall socket, d :: InRoom(presence, socket, channel, d) ==> d in byDevice
    {
      byDevice := map[];
      var rest := presence.Keys;
      while rest != {}
        invariant rest <= presence.Keys
        invariant forall d :: d in byDevice ==> byDevice[d] !in rest && InRoom(presence, byDevice[d], channel, d)
        invariant forall socket, d :: socket !in rest && InRoom(presence, socket, channel, d) ==>
                    d in byDevice && byDevice[d] <= socket
        decreases rest
      {
        var socket :| socket in rest;
        var p := presence[socket];
        if p.channel == Some(channel) && p.device.Some? {
          var device := p.device.value;
          if device !in byDevice || socket < byDevice[device] {
            byDevice := byDevice[device := socket];
          }
        }
        rest := rest - {socket};
      }
    }

    /** `activeMediaRoomMembers`: the allowed devices in the channel in increasing order, each with its socket. */
    method ActiveMembers(channel: ChannelId) returns (members: seq<Member>)
      ensures |members| == |Ordered(ActiveIn(presence, allowed, channel))|
      ensures forall i :: 0 <= i < |members| ==>
                members[i].device == Ordered(ActiveIn(presence, allowed, channel))[i]
                && SpeaksFor(presence, members[i].socket, channel, members[i].device)
    {
      var byDevice := SocketsByDevice(channel);
      var listed: set<DeviceId> := set d | d in byDevice && d in allowed;
      ghost var active := ActiveIn(presence, allowed, channel);
      assert listed == active by {
        forall d | d in active ensures d in listed {
          var socket :| InRoom(presence, socket, channel, d);
        }
        forall d | d in listed ensures d in active {
          assert InRoom(presence, byDevice[d], channel, d);
        }
      }
      var devices := SortIds(listed);
      AscendingUnique(devices, Ordered(active));
      assert devices == Ordered(ActiveIn(presence, allowed, channel));
      members := [];
      for n := 0 to |devices|
        invariant |members| == n
        invariant forall i :: 0 <= i < n ==>
                    members[i].device == devices[i] && SpeaksFor(presence, members[i].socket, channel, devices[i])
      {
        assert devices[n] in Elements(devices);
        assert devices[n] in byDevice;
        members := members + [Member(byDevice[devices[n]], devices[n])];
      }
    }

    /** The state that replaces the present one; a new ledger when the epoch rotates, else the same one. */
    method NextState(channel: ChannelId, devices: seq<DeviceId>, force: bool) returns (state: State)
      requires devices != []
      ensures fresh(state.ledger) || (channel in states && state.ledger == states[channel].ledger)
      ensures Room(state.epoch, state.membership, state.leader, state.devices, state.ledger.last)
              == NextRoom(if channel in states then Some(RoomValue(channel)) else None, devices, force)
    {
      if channel !in states {
        var ledger := new Ledger();
        return State(1, 1, devices[0], devices, ledger);
      }
      var previous := states[channel];
      var removed := exists d :: d in previous.devices && d !in devices;
      var rotate := force || removed || previous.leader != devices[0];
      var ledger := previous.ledger;
      if rotate {
        ledger := new Ledger();
      }
      return State(previous.epoch + (if rotate then 1 else 0),
                   previous.membership + (if previous.devices != devices then 1 else 0),
                   devices[0], devices, ledger);
    }

    /** Sets the room of a channel with these active devices; every other room stays as it is. */
    method Renew(channel: ChannelId, devices: seq<DeviceId>, force: bool) returns (state: State)
      requires Valid() && devices != []
      modifies this`states
      ensures Valid() && states == old(states)[channel := state]
      ensures fresh(state.ledger) || (channel in old(states) && state.ledger == old(states[channel].ledger))
      ensures Value() == old(Value()).(
                rooms := old(Value()).rooms[channel := NextRoom(RoomAt(old(Value()), channel), devices, force)])
    {
      state := NextState(channel, devices, force);
      states := states[channel := state];
      assert Value().rooms == old(Value()).rooms[channel := RoomValue(channel)];
    }

    method Forget(channel: ChannelId)
      requires Valid()
      modifies this`states
      ensures Valid() && states == old(states) - {channel}
      ensures Value() == old(Value()).(rooms := old(Value()).rooms - {channel})
    {
      states := states - {channel};
      assert Value().rooms == old(Value()).rooms - {channel};
    }

    /** `emitMediaRoomState` */
    method Emit(channel: ChannelId, force: bool) returns (room: Option<State>)
      requires Valid()
      modifies this`states
      ensures Valid() && Value() == Emitted(old(Value()), channel, force)
      ensures forall c :: c in states ==> fresh(states[c].ledger) || states[c].ledger in old(Ledgers())
      ensures room == if channel in states then Some(states[channel]) else None
    {
      var members := ActiveMembers(channel);
      ghost var ids := Ordered(ActiveIn(presence, allowed, channel));
      NoneActive(ids, ActiveIn(presence, allowed, channel));
      if |members| == 0 {
        Forget(channel);
        return None;
      }
      var devices := DeviceList(members);
      assert devices == ids;
      var state := Renew(channel, devices, force);
      return Some(state);
    }

    static lemma NoneActive(ids: seq<nat>, active: set<nat>)
      requires Elements(ids) == active
      ensures ids == [] <==> active == {}
    {
      if ids != [] {
        assert ids[0] in Elements(ids);
      }
    }

    static function DeviceList(members: seq<Member>): (devices: seq<DeviceId>)
      ensures |devices| == |members| && forall i :: 0 <= i < |members| ==> devices[i] == members[i].device
    {
      seq(|members|, i requires 0 <= i < |members| => members[i].device)
    }

    method Connect(socket: SocketId, device: Option<DeviceId>)
      requires Valid() && socket !in presence
      modifies this`presence
      ensures Valid() && Value() == Connected(old(Value()), socket, device)
    {
      presence := presence[socket := Presence(device, None)];
      assert Value().rooms == old(Value()).rooms;
    }

    method Join(socket: SocketId, channel: ChannelId) returns (r: Reply)
      requires Valid()
      modifies this`presence, this`states
      ensures Valid() && Value() == MediaRooms.Joined(old(Value()), socket, channel)
      ensures match JoinProblem(old(Value()), socket, channel)
        case Some(problem) => r == Failed(problem)
        case None => r == Joined(if channel in states then Some(states[channel]) else None)
    {
      if socket in presence && presence[socket].device == None {
        return Failed(MediaDeviceRequired);
      }
      if channel !in voice {
        return Failed(ChannelNotFound);
      }
      if socket !in presence {
        return Failed(PresenceMissing);
      }
      var previous := presence[socket].channel;
      presence := presence[socket := presence[socket].(channel := Some(channel))];
      assert Value().rooms == old(Value()).rooms;
      if previous != Some(channel) && previous.Some? {
        var _ := Emit(previous.value, false);
      }
      var room := Emit(channel, false);
      return Joined(room);
    }

    method Leave(socket: SocketId) returns (r: Reply)
      requires Valid()
      modifies this`presence, this`states
      ensures Valid() && Value() == Left(old(Value()), socket)
      ensures r == if socket in old(presence) then Done else Failed(PresenceMissing)
    {
      if socket !in presence {
        return Failed(PresenceMissing);
      }
      var previous := presence[socket].channel;
      presence := presence[socket := presence[socket].(channel := None)];
      assert Value().rooms == old(Value()).rooms;
      if previous.Some? {
        var _ := Emit(previous.value, false);
      }
      return Done;
    }

    method Disconnect(socket: SocketId)
      requires Valid()
      modifies this`presence, this`states
      ensures Valid() && Value() == Disconnected(old(Value()), socket)
    {
      if socket in presence {
        var previous := presence[socket].channel;
        presence := presence - {socket};
        assert Value().rooms == old(Value()).rooms;
        if previous.Some? {
          var _ := Emit(previous.value, false);
        }
      }
    }

    method FindMember(members: seq<Member>, device: DeviceId) returns (found: Option<Member>)
      ensures match found
        case Some(m) => m in members && m.device == device
        case None => forall m :: m in members ==> m.device != device
    {
      for i := 0 to |members|
        invariant forall j :: 0 <= j < i ==> members[j].device != device
      {
        if members[i].device == device {
          return Some(members[i]);
        }
      }
      return None;
    }

    /** The checks on an envelope, in the source's order, and the socket of its recipient. */
    method CheckEnvelope(socket: SocketId, e: Envelope) returns (r: Reply)
      requires Valid()
      ensures match RelayProblem(Value(), socket, e)
        case Some(problem) => r == Failed(problem)
        case None => r.Delivered? && SpeaksFor(presence, r.socket, e.channel, e.recipient)
    {
      if socket !in presence || presence[socket] != Presence(Some(e.sender), Some(e.channel)) {
        return Failed(SenderForbidden);
      }
      if e.channel !in states || states[e.channel].epoch != e.epoch {
        return Failed(StaleEpoch);
      }
      var members := ActiveMembers(e.channel);
      var sender := FindMember(members, e.sender);
      MemberOf(members, e.channel, e.sender, sender);
      if sender.None? || states[e.channel].leader != e.sender || !e.signed {
        return Failed(InvalidSignature);
      }
      var recipient := FindMember(members, e.recipient);
      MemberOf(members, e.channel, e.recipient, recipient);
      if recipient.None? {
        return Failed(RecipientForbidden);
      }
      var ledger := states[e.channel].ledger;
      if e.sequence <= (if e.sender in ledger.last then ledger.last[e.sender] else 0) {
        return Failed(Replayed);
      }
      return Delivered(recipient.value.socket);
    }

    /** `media:e2ee:envelope`: the envelope goes to the socket that speaks for the recipient. */
    method Relay(socket: SocketId, e: Envelope) returns (r: Reply)
      requires Valid()
      modifies Ledgers()
      ensures Valid() && Value() == Relayed(old(Value()), socket, e)
      ensures match RelayProblem(old(Value()), socket, e)
        case Some(problem) => r == Failed(problem)
        case None => r.Delivered? && SpeaksFor(presence, r.socket, e.channel, e.recipient)
    {
      r := CheckEnvelope(socket, e);
      if r.Delivered? {
        var ledger := states[e.channel].ledger;
        ledger.last := ledger.last[e.sender := e.sequence];
        assert Value().rooms == Relayed(old(Value()), socket, e).rooms;
      }
    }

    /** A device is found among the members exactly when it is active. */
    lemma MemberOf(members: seq<Member>, channel: ChannelId, device: DeviceId, found: Option<Member>)
      requires |members| == |Ordered(ActiveIn(presence, allowed, channel))|
      requires forall i :: 0 <= i < |members| ==> members[i].device == Ordered(ActiveIn(presence, allowed, channel))[i]
      requires match found
        case Some(m) => m in members && m.device == device
        case None => forall m :: m in members ==> m.device != device
      ensures found.Some? <==> device in ActiveIn(presence, allowed, channel)
    {
      var ids := Ordered(ActiveIn(presence, allowed, channel));
      if found.Some? {
        var i :| 0 <= i < |members| && members[i] == found.value;
        assert ids[i] in Elements(ids);
      } else {
        forall i | 0 <= i < |ids| ensures ids[i] != device {
          assert members[i] in members;
        }
      }
    }

    /** The part of deleting a channel that clears presence. */
    method DeleteChannel(channel: ChannelId)
      requires Valid()
      modifies this`presence, this`voice
      ensures Valid() && Value() == Deleted(old(Value()), channel)
    {
      voice := voice - {channel};
      var rest := presence.Keys;
      while rest != {}
        invariant rest <= presence.Keys == old(presence).Keys && voice == old(voice) - {channel}
        invariant forall socket :: socket in presence ==>
                    presence[socket] == (if socket !in rest && old(presence)[socket].channel == Some(channel)
                                         then old(presence)[socket].(channel := None) else old(presence)[socket])
        decreases rest
      {
        var socket :| socket in rest;
        if presence[socket].channel == Some(channel) {
          presence := presence[socket := presence[socket].(channel := None)];
        }
        rest := rest - {socket};
      }
      assert Value().rooms == old(Value()).rooms;
      assert presence == Deleted(old(Value()), channel).presence;
    }
  }
}
