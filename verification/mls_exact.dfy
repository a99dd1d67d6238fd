/**
 The operations on MLS groups told from the fields of the device and from what OpenMLS says of a message: which
 requirement refuses an operation, and what it makes of the group.
 */
module MlsExact {
  import opened Bytes
  import opened Checks
  import opened Common
  import opened Delivery
  import opened MlsCore
  import opened MlsGroup
  import opened StateFormat
  import S = Staging
  import StagingExact

  /** The device is in the group, and no commit of its own is pending. */
  predicate Idle(d: S.Device, group: Bytes) {
    group in d.groups && d.groups[group].pending == None
  }

  // ---------------------------------------------------------------- preparing commits

  function AddRequirements(mls: OpenMls, d: S.Device, group: Bytes, package: Bytes): seq<Check<MlsError>> {
    [Check(1 <= |group| <= 1024 && 1 <= |package| <= 1048576, InvalidInput),
     Check(group in d.groups, MissingState),
     Check(group in d.groups ==> d.groups[group].pending == None, StateConflict),
     Check(mls.packageOk(package), InvalidWireMessage),
     Check(group in d.groups ==> mls.addable(d.groups[group], package), CryptographicFailure)]
  }

  lemma AddExactly(mls: OpenMls, d: S.Device, group: Bytes, package: Bytes)
    ensures Answers(AddRequirements(mls, d, group, package), AddProblem(mls, d, group, package))
  {
    var r := AddRequirements(mls, d, group, package);
    InOrder5(r[0], r[1], r[2], r[3], r[4], AddProblem(mls, d, group, package));
    assert r == [r[0], r[1], r[2], r[3], r[4]];
  }

  /** How many members have this credential. */
  function Holders(members: seq<Bytes>, credential: Bytes): set<nat> {
    set i | 0 <= i < |members| && members[i] == credential
  }

  /** What is asked of a removal before the members are looked at. */
  function RemovalRequirements(d: S.Device, group: Bytes, credential: Bytes): seq<Check<MlsError>> {
    [Check(1 <= |credential| <= 1024, InvalidInput),
     Check(1 <= |group| <= 1024, InvalidInput),
     Check(group in d.groups, MissingState),
     Check(group in d.groups ==> d.groups[group].pending == None, StateConflict)]
  }

  /** And of the members. */
  function HolderRequirements(mls: OpenMls, d: S.Device, group: Bytes, credential: Bytes): seq<Check<MlsError>> {
    var holders := if group in d.groups then Holders(mls.members(d.groups[group]), credential) else {};
    [Check(holders != {}, MissingState),
     Check(|holders| <= 1, StateConflict),
     Check(forall i :: i in holders && group in d.groups ==> mls.removable(d.groups[group], i), CryptographicFailure)]
  }

  lemma {:induction false} CountAscending(s: seq<nat>)
    requires Ascending(s)
    ensures |Elements(s)| == |s|
  {
    if s != [] {
      var init, last := s[..|s| - 1], s[|s| - 1];
      CountAscending(init);
      assert Elements(s) == Elements(init) + {last};
      assert last !in Elements(init);
    }
  }

  lemma MatchingMeans(members: seq<Bytes>, credential: Bytes)
    ensures Holders(members, credential) == Elements(Matching(members, credential))
    ensures |Holders(members, credential)| == |Matching(members, credential)|
  {
    CountAscending(Matching(members, credential));
  }

  function RemovalProblem(d: S.Device, group: Bytes, credential: Bytes): Option<MlsError> {
    if !Bounded(credential, 1024) then Some(InvalidInput) else S.EncryptProblem(d, group)
  }

  lemma RemovalMeans(d: S.Device, group: Bytes, credential: Bytes)
    ensures Answers(RemovalRequirements(d, group, credential), RemovalProblem(d, group, credential))
  {
    var r := RemovalRequirements(d, group, credential);
    InOrder4(r[0], r[1], r[2], r[3], RemovalProblem(d, group, credential));
    assert r == [r[0], r[1], r[2], r[3]];
  }

  /** A member is removed exactly when it is the only one with the credential and may be removed. */
  lemma RemoveExactly(mls: OpenMls, d: S.Device, group: Bytes, credential: Bytes)
    ensures Answers(RemovalRequirements(d, group, credential) + HolderRequirements(mls, d, group, credential),
                    RemoveProblem(mls, d, group, credential))
  {
    RemovalMeans(d, group, credential);
    var problem := RemoveProblem(mls, d, group, credential);
    if RemovalProblem(d, group, credential) == None {
      var members := mls.members(d.groups[group]);
      MatchingMeans(members, credential);
      var matches := Matching(members, credential);
      assert matches != [] ==> matches[0] in Elements(matches);
      assert |matches| == 1 ==> Elements(matches) == {matches[0]};
      var r := HolderRequirements(mls, d, group, credential);
      InOrder3(r[0], r[1], r[2], problem);
      assert r == [r[0], r[1], r[2]];
    }
    InTwoParts(RemovalRequirements(d, group, credential), HolderRequirements(mls, d, group, credential),
               RemovalProblem(d, group, credential), problem);
  }

  /**
   A prepared commit is the author's, for the commits the group has merged; it is pending in the group and changes
   nothing else, and its epochs are the group's and the next one, as 64-bit numbers.
   */
  lemma PreparedExactly(
    before: map<Bytes, Group>, after: map<Bytes, Group>, group: Bytes, author: DeviceId, nonce: nat, p: Prepared)
    requires PreparedFor(before, after, group, author, nonce, p)
    ensures group in before && p.commit == CommitWire(author, nonce, before[group].history)
    ensures var g := before[group];
            && g.pending == None && after == before[group := Group(g.joinedAt, g.history, Some(p.commit))]
            && p.parentEpoch == |g.history| % 0x1_0000_0000_0000_0000
            && p.acceptedEpoch == (|g.history| + 1) % 0x1_0000_0000_0000_0000
  {}

  // ---------------------------------------------------------------- what a commit or a Welcome makes of a group

  /** Merging appends the commit, and nothing is pending afterwards. */
  lemma MergedExactly(g: Group, commit: Wire)
    ensures Merged(g, commit) == Group(g.joinedAt, g.history + [commit], None)
    ensures S.EpochNumber(Merged(g, commit)) == (|g.history| + 1) % 0x1_0000_0000_0000_0000
  {}

  /** A Welcome leads into the history it was made for. */
  lemma WelcomedExactly(g: Group, commit: Wire)
    ensures WelcomeAfter(g, commit) == WelcomeWire(g.history + [commit])
    ensures Joined(WelcomeAfter(g, commit)) == Group(|g.history| + 1, g.history + [commit], None)
  {}

  /** What is asked of a commit of another member. */
  function CommitRequirements(mls: OpenMls, d: S.Device, group: Bytes, wire: Bytes): seq<Check<MlsError>> {
    [Check(1 <= |wire| <= 1048576, InvalidInput),
     Check(1 <= |group| <= 1024, InvalidInput),
     Check(group in d.groups, MissingState),
     Check(!mls.read(wire).Malformed?, InvalidWireMessage)]
  }

  function ContentRequirements(
    mls: OpenMls, c: S.Crypto, d: S.Device, group: Bytes, self: DeviceId, wire: Bytes): seq<Check<MlsError>>
  {
    var message := mls.read(wire);
    [Check(message.PrivateMessage? ==> StagingExact.CanOpen(c, d, group, wire), CryptographicFailure),
     Check(message.CommitMessage?, UnexpectedMessageClass),
     Check(message.CommitMessage? && group in d.groups ==>
             message.commit.CommitWire? && message.commit.author != self
             && message.commit.basis == d.groups[group].history, CryptographicFailure)]
  }

  function ReadProblem(mls: OpenMls, d: S.Device, group: Bytes, wire: Bytes): Option<MlsError> {
    if !Bounded(wire, 1048576) then Some(InvalidInput)
    else if S.LoadGroup(d, group).Err? then Some(S.LoadGroup(d, group).error)
    else if mls.read(wire).Malformed? then Some(InvalidWireMessage)
    else None
  }

  lemma ReadMeans(mls: OpenMls, d: S.Device, group: Bytes, wire: Bytes)
    ensures Answers(CommitRequirements(mls, d, group, wire), ReadProblem(mls, d, group, wire))
  {
    var r := CommitRequirements(mls, d, group, wire);
    InOrder4(r[0], r[1], r[2], r[3], ReadProblem(mls, d, group, wire));
    assert r == [r[0], r[1], r[2], r[3]];
  }

  /** A commit is merged exactly when another member made it for the history of the group. */
  lemma CommitExactly(mls: OpenMls, c: S.Crypto, d: S.Device, group: Bytes, self: DeviceId, wire: Bytes)
    ensures Answers(CommitRequirements(mls, d, group, wire) + ContentRequirements(mls, c, d, group, self, wire),
                    CommitProblem(mls, c, d, group, self, wire))
  {
    ReadMeans(mls, d, group, wire);
    var problem := CommitProblem(mls, c, d, group, self, wire);
    if ReadProblem(mls, d, group, wire) == None {
      var r := ContentRequirements(mls, c, d, group, self, wire);
      InOrder3(r[0], r[1], r[2], problem);
      assert r == [r[0], r[1], r[2]];
    }
    InTwoParts(CommitRequirements(mls, d, group, wire), ContentRequirements(mls, c, d, group, self, wire),
               ReadProblem(mls, d, group, wire), problem);
  }

  /** What is asked of a Welcome before it is opened. */
  function WelcomeForm(mls: OpenMls, d: S.Device, group: Bytes, wire: Bytes): seq<Check<MlsError>> {
    [Check(1 <= |group| <= 1024 && 1 <= |wire| <= 1048576, InvalidInput),
     Check(group !in d.groups, StateConflict),
     Check(!mls.read(wire).Malformed?, InvalidWireMessage),
     Check(mls.read(wire).WelcomeMessage?, UnexpectedMessageClass)]
  }

  function WelcomeContent(mls: OpenMls, group: Bytes, wire: Bytes): seq<Check<MlsError>> {
    var message := mls.read(wire);
    [Check(message.WelcomeMessage? ==> message.opens, CryptographicFailure),
     Check(message.WelcomeMessage? ==> message.group == group, InvalidWireMessage)]
  }

  function WelcomeFormProblem(mls: OpenMls, d: S.Device, group: Bytes, wire: Bytes): Option<MlsError> {
    if !Bounded(group, 1024) || !Bounded(wire, 1048576) then Some(InvalidInput)
    else if group in d.groups then Some(StateConflict)
    else if mls.read(wire).Malformed? then Some(InvalidWireMessage)
    else if !mls.read(wire).WelcomeMessage? then Some(UnexpectedMessageClass)
    else None
  }

  lemma WelcomeFormMeans(mls: OpenMls, d: S.Device, group: Bytes, wire: Bytes)
    ensures Answers(WelcomeForm(mls, d, group, wire), WelcomeFormProblem(mls, d, group, wire))
  {
    var r := WelcomeForm(mls, d, group, wire);
    InOrder4(r[0], r[1], r[2], r[3], WelcomeFormProblem(mls, d, group, wire));
    assert r == [r[0], r[1], r[2], r[3]];
  }

  /**
   A device joins exactly with a Welcome that opens and leads into the expected group, which it is not in yet; one
   that opens and leads elsewhere strays.
   */
  lemma JoinExactly(mls: OpenMls, d: S.Device, group: Bytes, wire: Bytes)
    ensures Answers(WelcomeForm(mls, d, group, wire) + WelcomeContent(mls, group, wire), WelcomeProblem(mls, d, group, wire))
    ensures Strays(mls, d, group, wire)
            <==> 1 <= |group| <= 1024 && 1 <= |wire| <= 1048576 && group !in d.groups && mls.read(wire).WelcomeMessage?
                 && mls.read(wire).opens && mls.read(wire).group != group
  {
    WelcomeFormMeans(mls, d, group, wire);
    var problem := WelcomeProblem(mls, d, group, wire);
    if WelcomeFormProblem(mls, d, group, wire) == None {
      var r := WelcomeContent(mls, group, wire);
      InOrder2(r[0], r[1], problem);
      assert r == [r[0], r[1]];
    }
    InTwoParts(WelcomeForm(mls, d, group, wire), WelcomeContent(mls, group, wire), WelcomeFormProblem(mls, d, group, wire),
               problem);
  }
}
