/** One MLS installation: the methods of `MlsDevice` that change its groups, receipts and outgoing messages. */
module MlsCore {
  import opened Common
  import opened Bytes
  import opened Delivery
  import opened MlsGroup
  import opened StateFormat
  import StateExact
  import StateExport
  import R = Restarts
  import S = Staging

  /** What a wire message deserializes to. */
  datatype Incoming =
    | Malformed
    | CommitMessage(commit: Wire)
    | PrivateMessage
    | WelcomeMessage(group: Bytes, welcome: JoinWire, opens: bool)
    | OtherMessage

  type JoinWire = w: Wire | w.WelcomeWire? witness WelcomeWire([])

  /**
   What OpenMLS decides: what a wire is, whether a key package is valid and of the suite, who is in a
   group, and whether an owner of a package can be added or a member removed.
   */
  datatype OpenMls = OpenMls(
    read: Bytes -> Incoming, packageOk: Bytes -> bool, members: Group -> seq<Bytes>,
    addable: (Group, Bytes) -> bool, removable: (Group, nat) -> bool)

  datatype Prepared = Prepared(commit: Wire, welcome: Option<Wire>, parentEpoch: u64, acceptedEpoch: u64)

  /** The group has the prepared commit pending, made for its history, and every other group is as it was. */
  predicate PreparedFor(
    before: map<Bytes, Group>, after: map<Bytes, Group>, group: Bytes, author: DeviceId, nonce: nat, p: Prepared)
  {
    && group in before && before[group].pending == None
    && p.commit == CommitBy(before[group], author, nonce)
    && after == before[group := before[group].(pending := Some(p.commit))]
    && p.parentEpoch == S.EpochNumber(before[group])
    && p.acceptedEpoch == S.EpochNumber(Merged(before[group], p.commit))
  }

  function AddProblem(mls: OpenMls, d: S.Device, group: Bytes, package: Bytes): Option<MlsError> {
    if !Bounded(group, MAX_GROUP_ID_BYTES) || !Bounded(package, MAX_WIRE_BYTES) then Some(InvalidInput)
    else if S.EncryptProblem(d, group).Some? then S.EncryptProblem(d, group)
    else if !mls.packageOk(package) then Some(InvalidWireMessage)
    else if !mls.addable(d.groups[group], package) then Some(CryptographicFailure)
    else None
  }

  /** The positions of a credential in the list of members. */
  function Matching(members: seq<Bytes>, credential: Bytes): (indices: seq<nat>)
    ensures Ascending(indices)
    ensures forall i :: i in indices <==> 0 <= i < |members| && members[i] == credential
  {
    if members == [] then []
    else
      var last := |members| - 1;
      var earlier := Matching(members[..last], credential);
      assert forall k :: 0 <= k < |earlier| ==> earlier[k] in earlier;
      assert forall i :: i in earlier ==> i < last;
      if members[last] == credential then earlier + [last] else earlier
  }

  predicate IsOnlyMember(members: seq<Bytes>, credential: Bytes, i: nat) {
    && i < |members| && members[i] == credential
    && forall j :: 0 <= j < |members| && j != i ==> members[j] != credential
  }

  lemma OnlyMatch(members: seq<Bytes>, credential: Bytes, i: nat)
    requires Matching(members, credential) == [i]
    ensures IsOnlyMember(members, credential, i)
  {
    assert i in Matching(members, credential);
    forall j | 0 <= j < |members| && j != i ensures members[j] != credential {
      assert j !in Matching(members, credential);
    }
  }

  function RemoveProblem(mls: OpenMls, d: S.Device, group: Bytes, credential: Bytes): Option<MlsError> {
    if !Bounded(credential, MAX_IDENTITY_BYTES) then Some(InvalidInput)
    else if S.EncryptProblem(d, group).Some? then S.EncryptProblem(d, group)
    else
      var matches := Matching(mls.members(d.groups[group]), credential);
      if matches == [] then Some(MissingState)
      else if |matches| > 1 then Some(StateConflict)
      else if !mls.removable(d.groups[group], matches[0]) then Some(CryptographicFailure)
      else None
  }

  function CommitProblem(mls: OpenMls, c: S.Crypto, d: S.Device, group: Bytes, self: DeviceId, wire: Bytes): Option<MlsError> {
    if !Bounded(wire, MAX_WIRE_BYTES) then Some(InvalidInput)
    else match S.LoadGroup(d, group)
      case Err(error) => Some(error)
      case Ok(g) =>
        match mls.read(wire)
        case Malformed => Some(InvalidWireMessage)
        case CommitMessage(commit) => if Processable(g, self, commit) then None else Some(CryptographicFailure)
        case PrivateMessage =>
          if S.Processes(c, d, group, wire) then Some(UnexpectedMessageClass) else Some(CryptographicFailure)
        case _ => Some(UnexpectedMessageClass)
  }

  function WelcomeProblem(mls: OpenMls, d: S.Device, group: Bytes, wire: Bytes): Option<MlsError> {
    if !Bounded(group, MAX_GROUP_ID_BYTES) || !Bounded(wire, MAX_WIRE_BYTES) then Some(InvalidInput)
    else if group in d.groups then Some(StateConflict)
    else match mls.read(wire)
      case Malformed => Some(InvalidWireMessage)
      case WelcomeMessage(id, _, opens) =>
        if !opens then Some(CryptographicFailure) else if id != group then Some(InvalidWireMessage) else None
      case _ => Some(UnexpectedMessageClass)
  }

  /** A Welcome that opens, but leads into another group than the expected one. */
  predicate Strays(mls: OpenMls, d: S.Device, group: Bytes, wire: Bytes) {
    && Bounded(group, MAX_GROUP_ID_BYTES) && Bounded(wire, MAX_WIRE_BYTES) && group !in d.groups
    && mls.read(wire).WelcomeMessage? && mls.read(wire).opens && mls.read(wire).group != group
  }

  class MlsDevice {
    const crypto: S.Crypto
    const mls: OpenMls
    const vault: R.Vault
    var groups: map<Bytes, Group>
    var consumed: set<S.Cipher>
    var sealed: nat
    var pendingApplications: map<Bytes, Application>
    var pendingOutgoing: map<Bytes, Outgoing>

    function Value(): S.Device
      reads this
    {
      S.Device(groups, consumed, sealed, pendingApplications, pendingOutgoing)
    }

    /** Outgoing messages are kept under their operation ids. */
    ghost predicate Valid()
      reads this
    {
      StateExact.Keyed(pendingOutgoing)
    }

    constructor (crypto: S.Crypto, mls: OpenMls, vault: R.Vault)
      ensures Valid() && this.crypto == crypto && this.mls == mls && this.vault == vault && Value() == S.NewDevice()
    {
      this.crypto, this.mls, this.vault := crypto, mls, vault;
      groups, consumed, sealed, pendingApplications, pendingOutgoing := map[], {}, 0, map[], map[];
    }

    constructor From(crypto: S.Crypto, mls: OpenMls, vault: R.Vault, d: S.Device)
      requires StateExact.Keyed(d.outgoing)
      ensures Valid() && this.crypto == crypto && this.mls == mls && this.vault == vault && Value() == d
    {
      this.crypto, this.mls, this.vault := crypto, mls, vault;
      groups, consumed, sealed := d.groups, d.consumed, d.sealed;
      pendingApplications, pendingOutgoing := d.pending, d.outgoing;
    }

    // -------------------------------------------------------------- export and import

    method ExportEncryptedState() returns (r: Result<StateExport.File>)
      requires Valid()
      ensures r == R.Saved(vault, Value())
    {
      r := StateExport.Export(vault.key, vault.context, R.StateOf(vault, Value()));
    }

    /** A new device from a file; no device when the file is refused. */
    static method ImportEncryptedState(crypto: S.Crypto, mls: OpenMls, vault: R.Vault, file: StateExport.File)
      returns (r: Result<MlsDevice>)
      ensures r.Ok? <==> R.Restored(vault, file).Ok?
      ensures r.Ok? ==>
                && fresh(r.value) && r.value.Valid() && r.value.crypto == crypto && r.value.mls == mls
                && r.value.vault == vault && r.value.Value() == R.Restored(vault, file).value
      ensures r.Err? ==> r.error == R.Restored(vault, file).error
    {
      var state := StateExport.Import(vault.key, vault.context, file, vault.hasSigner);
      if state.Err? {
        return Err(state.error);
      }
      StateExport.ImportIsAuthentic(vault.key, vault.context, file, vault.hasSigner);
      var device := new MlsDevice.From(crypto, mls, vault, R.DeviceOf(vault, state.value));
      return Ok(device);
    }

    // -------------------------------------------------------------- groups

    method LoadGroup(group: Bytes) returns (r: Result<Group>)
      ensures r == S.LoadGroup(Value(), group)
    {
      if !Bounded(group, MAX_GROUP_ID_BYTES) {
        return Err(InvalidInput);
      }
      if group !in groups {
        return Err(MissingState);
      }
      return Ok(groups[group]);
    }

    method CreateGroup(group: Bytes) returns (r: Result<u64>)
      requires Valid()
      modifies this`groups
      ensures Valid()
      ensures r.Ok? <==> Bounded(group, MAX_GROUP_ID_BYTES) && group !in old(groups)
      ensures r.Ok? ==> r.value == 0 && groups == old(groups)[group := Group(0, [], None)]
      ensures r.Err? ==> groups == old(groups)
                         && r.error == if Bounded(group, MAX_GROUP_ID_BYTES) then StateConflict else InvalidInput
    {
      if !Bounded(group, MAX_GROUP_ID_BYTES) {
        return Err(InvalidInput);
      }
      if group in groups {
        return Err(StateConflict);
      }
      groups := groups[group := Group(0, [], None)];
      return Ok(0);
    }

    /** The commit becomes the pending one; the group is still in its present epoch. */
    method Prepare(group: Bytes, g: Group, author: DeviceId, nonce: nat) returns (commit: Wire)
      requires Valid() && group in groups && g == groups[group] && g.pending == None
      modifies this`groups
      ensures Valid()
      ensures commit == CommitBy(g, author, nonce)
      ensures groups == old(groups)[group := g.(pending := Some(commit))]
    {
      commit := CommitBy(g, author, nonce);
      groups := groups[group := g.(pending := Some(commit))];
    }

    /** The Welcome leads whoever joins with it to the group that the committer has after accepting. */
    method PrepareAdd(group: Bytes, package: Bytes, author: DeviceId, nonce: nat) returns (r: Result<Prepared>)
      requires Valid()
      modifies this`groups
      ensures Valid()
      ensures r.Err? <==> AddProblem(mls, old(Value()), group, package).Some?
      ensures r.Err? ==> r.error == AddProblem(mls, old(Value()), group, package).value && groups == old(groups)
      ensures r.Ok? ==> PreparedFor(old(groups), groups, group, author, nonce, r.value)
      ensures r.Ok? ==>
                && r.value.welcome.Some? && r.value.welcome.value.WelcomeWire?
                && var joined, merged := Joined(r.value.welcome.value), Merged(old(groups)[group], r.value.commit);
                && joined.history == merged.history && r.value.acceptedEpoch == S.EpochNumber(joined)
    {
      if !Bounded(group, MAX_GROUP_ID_BYTES) || !Bounded(package, MAX_WIRE_BYTES) {
        return Err(InvalidInput);
      }
      var loaded := LoadGroup(group);
      if loaded.Err? {
        return Err(loaded.error);
      }
      var g := loaded.value;
      if g.pending.Some? {
        return Err(StateConflict);
      }
      if !mls.packageOk(package) {
        return Err(InvalidWireMessage);
      }
      if !mls.addable(g, package) {
        return Err(CryptographicFailure);
      }
      var commit := Prepare(group, g, author, nonce);
      var next := S.EpochNumber(Merged(g, commit));
      return Ok(Prepared(commit, Some(WelcomeAfter(g, commit)), S.EpochNumber(g), next));
    }

    method PrepareSelfUpdate(group: Bytes, author: DeviceId, nonce: nat) returns (r: Result<Prepared>)
      requires Valid()
      modifies this`groups
      ensures Valid()
      ensures r.Err? <==> S.EncryptProblem(old(Value()), group).Some?
      ensures r.Err? ==> r.error == S.EncryptProblem(old(Value()), group).value && groups == old(groups)
      ensures r.Ok? ==> PreparedFor(old(groups), groups, group, author, nonce, r.value) && r.value.welcome == None
    {
      var loaded := LoadGroup(group);
      if loaded.Err? {
        return Err(loaded.error);
      }
      var g := loaded.value;
      if g.pending.Some? {
        return Err(StateConflict);
      }
      var commit := Prepare(group, g, author, nonce);
      return Ok(Prepared(commit, None, S.EpochNumber(g), S.EpochNumber(Merged(g, commit))));
    }

    /** Removes the only member with this credential. */
    method PrepareRemove(group: Bytes, credential: Bytes, author: DeviceId, nonce: nat) returns (r: Result<Prepared>)
      requires Valid()
      modifies this`groups
      ensures Valid()
      ensures r.Err? <==> RemoveProblem(mls, old(Value()), group, credential).Some?
      ensures r.Err? ==> r.error == RemoveProblem(mls, old(Value()), group, credential).value && groups == old(groups)
      ensures r.Ok? ==> PreparedFor(old(groups), groups, group, author, nonce, r.value) && r.value.welcome == None
      ensures r.Ok? ==> exists i :: IsOnlyMember(mls.members(old(groups)[group]), credential, i)
    {
      if !Bounded(credential, MAX_IDENTITY_BYTES) {
        return Err(InvalidInput);
      }
      var loaded := LoadGroup(group);
      if loaded.Err? {
        return Err(loaded.error);
      }
      var g := loaded.value;
      if g.pending.Some? {
        return Err(StateConflict);
      }
      var matches := Matching(mls.members(g), credential);
      if |matches| == 0 {
        return Err(MissingState);
      }
      if |matches| > 1 {
        return Err(StateConflict);
      }
      OnlyMatch(mls.members(g), credential, matches[0]);
      if !mls.removable(g, matches[0]) {
        return Err(CryptographicFailure);
      }
      var commit := Prepare(group, g, author, nonce);
      return Ok(Prepared(commit, None, S.EpochNumber(g), S.EpochNumber(Merged(g, commit))));
    }

    method AcceptPendingCommit(group: Bytes) returns (r: Result<u64>)
      requires Valid()
      modifies this`groups
      ensures Valid()
      ensures r.Ok? <==> S.LoadGroup(old(Value()), group).Ok? && old(groups)[group].pending.Some?
      ensures r.Ok? ==>
                && var merged := Merged(old(groups)[group], old(groups)[group].pending.value);
                && groups == old(groups)[group := merged] && r.value == S.EpochNumber(merged)
      ensures r.Err? ==> groups == old(groups)
                         && r.error == if Bounded(group, MAX_GROUP_ID_BYTES) then MissingState else InvalidInput
    {
      var loaded := LoadGroup(group);
      if loaded.Err? {
        return Err(loaded.error);
      }
      var g := loaded.value;
      if g.pending.None? {
        return Err(MissingState);
      }
      g := Merged(g, g.pending.value);
      groups := groups[group := g];
      return Ok(S.EpochNumber(g));
    }

    method RejectPendingCommit(group: Bytes) returns (r: Result<u64>)
      requires Valid()
      modifies this`groups
      ensures Valid()
      ensures r.Ok? <==> S.LoadGroup(old(Value()), group).Ok? && old(groups)[group].pending.Some?
      ensures r.Ok? ==> groups == old(groups)[group := old(groups)[group].(pending := None)]
                        && r.value == S.EpochNumber(old(groups)[group])
      ensures r.Err? ==> groups == old(groups)
                         && r.error == if Bounded(group, MAX_GROUP_ID_BYTES) then MissingState else InvalidInput
    {
      var loaded := LoadGroup(group);
      if loaded.Err? {
        return Err(loaded.error);
      }
      var g := loaded.value;
      if g.pending.None? {
        return Err(MissingState);
      }
      groups := groups[group := g.(pending := None)];
      return Ok(S.EpochNumber(g));
    }

    /**
     Another member's commit; merging it discards the own pending commit. A message that is no commit
     is processed too, and so uses up its secret, before it is refused.
     */
    method ProcessCommit(group: Bytes, self: DeviceId, wire: Bytes) returns (r: Result<u64>)
      requires Valid()
      modifies this`groups, this`consumed
      ensures Valid()
      ensures r.Ok? <==> CommitProblem(mls, crypto, old(Value()), group, self, wire) == None
      ensures r.Ok? ==>
                && mls.read(wire).CommitMessage?
                && var merged := Merged(old(groups)[group], mls.read(wire).commit);
                && groups == old(groups)[group := merged] && consumed == old(consumed) && r.value == S.EpochNumber(merged)
      ensures r.Err? ==> r.error == CommitProblem(mls, crypto, old(Value()), group, self, wire).value
      ensures r.Err? ==> Value() == if mls.read(wire).PrivateMessage? then S.Decrypted(crypto, old(Value()), group, wire)
                                    else old(Value())
    {
      if !Bounded(wire, MAX_WIRE_BYTES) {
        return Err(InvalidInput);
      }
      var loaded := LoadGroup(group);
      if loaded.Err? {
        return Err(loaded.error);
      }
      var g := loaded.value;
      match mls.read(wire) {
        case Malformed => return Err(InvalidWireMessage);
        case WelcomeMessage(_, _, _) => return Err(UnexpectedMessageClass);
        case OtherMessage => return Err(UnexpectedMessageClass);
        case PrivateMessage =>
          var content := crypto.open(group, wire);
          if content.Refused? || content.epoch != Epoch(g) || S.Cipher(group, wire) in consumed {
            return Err(CryptographicFailure);
          }
          consumed := consumed + {S.Cipher(group, wire)};
          return Err(UnexpectedMessageClass);
        case CommitMessage(commit) =>
          if !Processable(g, self, commit) {
            return Err(CryptographicFailure);
          }
          g := Merged(g, commit);
          groups := groups[group := g];
          return Ok(S.EpochNumber(g));
      }
    }

    /** Joins a group; one that turns out to be another group than expected is deleted again. */
    method JoinFromWelcome(group: Bytes, wire: Bytes) returns (r: Result<u64>)
      requires Valid()
      modifies this`groups
      ensures Valid()
      ensures r.Ok? <==> WelcomeProblem(mls, old(Value()), group, wire) == None
      ensures r.Ok? ==>
                && mls.read(wire).WelcomeMessage?
                && var joined := Joined(mls.read(wire).welcome);
                && groups == old(groups)[group := joined] && r.value == S.EpochNumber(joined)
      ensures r.Err? ==> r.error == WelcomeProblem(mls, old(Value()), group, wire).value
      ensures r.Err? ==> groups == if Strays(mls, old(Value()), group, wire) then old(groups) - {mls.read(wire).group}
                                   else old(groups)
    {
      if !Bounded(group, MAX_GROUP_ID_BYTES) || !Bounded(wire, MAX_WIRE_BYTES) {
        return Err(InvalidInput);
      }
      if group in groups {
        return Err(StateConflict);
      }
      var message := mls.read(wire);
      if message.Malformed? {
        return Err(InvalidWireMessage);
      }
      if !message.WelcomeMessage? {
        return Err(UnexpectedMessageClass);
      }
      if !message.opens {
        return Err(CryptographicFailure);
      }
      groups := groups[message.group := Joined(message.welcome)];
      if message.group != group {
        groups := groups - {message.group};
        return Err(InvalidWireMessage);
      }
      return Ok(S.EpochNumber(groups[group]));
    }

    // -------------------------------------------------------------- messages

    method EncryptApplication(group: Bytes, plaintext: Bytes) returns (r: Result<Bytes>)
      requires Valid()
      modifies this`sealed
      ensures Valid()
      ensures r.Ok? <==> Bounded(plaintext, MAX_APPLICATION_BYTES) && S.EncryptProblem(old(Value()), group) == None
      ensures r.Ok? ==> r.value == crypto.seal(group, old(sealed), plaintext) && sealed == old(sealed) + 1
      ensures r.Err? ==> sealed == old(sealed)
      ensures r.Err? ==>
                r.error == if Bounded(plaintext, MAX_APPLICATION_BYTES) then S.EncryptProblem(old(Value()), group).value
                           else InvalidInput
    {
      if !Bounded(plaintext, MAX_APPLICATION_BYTES) {
        return Err(InvalidInput);
      }
      var loaded := LoadGroup(group);
      if loaded.Err? {
        return Err(loaded.error);
      }
      if loaded.value.pending.Some? {
        return Err(StateConflict);
      }
      sealed := sealed + 1;
      return Ok(crypto.seal(group, sealed - 1, plaintext));
    }

    method DecryptApplication(group: Bytes, wire: Bytes) returns (r: Result<Application>)
      requires Valid()
      modifies this`consumed
      ensures Valid()
      ensures r == S.DecryptResult(crypto, old(Value()), group, wire)
      ensures Value() == S.Decrypted(crypto, old(Value()), group, wire)
    {
      if !Bounded(wire, MAX_WIRE_BYTES) {
        return Err(InvalidInput);
      }
      var loaded := LoadGroup(group);
      if loaded.Err? {
        return Err(loaded.error);
      }
      var content := crypto.open(group, wire);
      if content.Refused? {
        return Err(content.error);
      }
      if content.epoch != Epoch(loaded.value) || S.Cipher(group, wire) in consumed {
        return Err(CryptographicFailure);
      }
      consumed := consumed + {S.Cipher(group, wire)};
      if content.Handshake? {
        return Err(UnexpectedMessageClass);
      }
      if |content.plaintext| > MAX_APPLICATION_BYTES {
        return Err(InvalidWireMessage);
      }
      return Ok(S.ToApplication(content));
    }

    method StageApplication(group: Bytes, sequence: u64, wire: Bytes) returns (r: Result<Application>)
      requires Valid()
      modifies this`consumed, this`pendingApplications
      ensures Valid()
      ensures r == S.StageResult(crypto, old(Value()), group, sequence, wire)
      ensures Value() == S.Staged(crypto, old(Value()), group, sequence, wire)
    {
      if sequence == 0 || !Bounded(group, MAX_GROUP_ID_BYTES) {
        return Err(InvalidInput);
      }
      var key := S.ReceiptKey(group, sequence);
      if key in pendingApplications {
        return Ok(pendingApplications[key]);
      }
      if |pendingApplications| >= MAX_PENDING_APPLICATIONS {
        return Err(StateConflict);
      }
      r := DecryptApplication(group, wire);
      if r.Ok? {
        pendingApplications := pendingApplications[key := r.value];
      }
    }

    method ClearStagedApplication(group: Bytes, sequence: u64) returns (r: Result<u64>)
      requires Valid()
      modifies this`pendingApplications
      ensures Valid()
      ensures r == if Bounded(group, MAX_GROUP_ID_BYTES) then Ok(sequence) else Err(InvalidInput)
      ensures Value() == S.Cleared(old(Value()), group, sequence)
    {
      if !Bounded(group, MAX_GROUP_ID_BYTES) {
        return Err(InvalidInput);
      }
      pendingApplications := pendingApplications - {S.ReceiptKey(group, sequence)};
      return Ok(sequence);
    }

    method StageOutgoingApplication(group: Bytes, operation: Bytes, plaintext: Bytes) returns (r: Result<Outgoing>)
      requires Valid()
      modifies this`sealed, this`pendingOutgoing
      ensures Valid()
      ensures r == S.SendResult(crypto, old(Value()), group, operation, plaintext)
      ensures Value() == S.Sent(crypto, old(Value()), group, operation, plaintext)
    {
      if !OperationIdOk(operation) || !Bounded(plaintext, MAX_APPLICATION_BYTES) {
        return Err(InvalidInput);
      }
      if operation in pendingOutgoing {
        var existing := pendingOutgoing[operation];
        if existing.group != group || existing.plaintext != plaintext {
          return Err(StateConflict);
        }
        return Ok(existing);
      }
      if |pendingOutgoing| >= MAX_PENDING_OUTGOING {
        return Err(StateConflict);
      }
      var loaded := LoadGroup(group);
      if loaded.Err? {
        return Err(loaded.error);
      }
      var sealing := EncryptApplication(group, plaintext);
      if sealing.Err? {
        return Err(sealing.error);
      }
      var application := Outgoing(group, operation, S.EpochNumber(loaded.value), plaintext, sealing.value);
      pendingOutgoing := pendingOutgoing[operation := application];
      return Ok(application);
    }

    method ClearOutgoingApplication(operation: Bytes) returns (r: Result<()>)
      requires Valid()
      modifies this`pendingOutgoing
      ensures Valid()
      ensures r == if OperationIdOk(operation) then Ok(()) else Err(InvalidInput)
      ensures Value() == S.Dropped(old(Value()), operation)
    {
      if !OperationIdOk(operation) {
        return Err(InvalidInput);
      }
      pendingOutgoing := pendingOutgoing - {operation};
      return Ok(());
    }

    /** Every staged message once, in the order of the operation ids. */
    method PendingOutgoingApplications() returns (list: seq<Outgoing>)
      requires Valid()
      ensures |list| == |pendingOutgoing|
      ensures forall o :: o in list <==> o.operation in pendingOutgoing && pendingOutgoing[o.operation] == o
      ensures forall i, j :: 0 <= i < j < |list| ==> Less(list[i].operation, list[j].operation)
    {
      var keys := SortKeys(pendingOutgoing.Keys);
      ListsCount(keys, pendingOutgoing.Keys);
      list := [];
      for n := 0 to |keys|
        invariant |list| == n
        invariant forall i :: 0 <= i < n ==> keys[i] in pendingOutgoing && list[i] == pendingOutgoing[keys[i]]
      {
        assert keys[n] in pendingOutgoing.Keys;
        list := list + [pendingOutgoing[keys[n]]];
      }
      forall o: Outgoing | o.operation in pendingOutgoing && pendingOutgoing[o.operation] == o ensures o in list {
        var i :| 0 <= i < |keys| && keys[i] == o.operation;
        assert list[i] == o;
      }
    }
  }
}
