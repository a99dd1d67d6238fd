/**
 The delivery service composed with any number of devices over an asynchronous network that may
 delay, duplicate, reorder and lose requests and answers. Devices keep the caller contract of
 client/native/yappa_mls: a prepared commit is submitted before it is accepted or rejected, it is
 accepted or rejected only on the answer to that submission, a Welcome is sent only for a merged
 commit, and the log is processed in order. Every other client of the server may do anything
 except submit commits or Welcomes to this channel.
 */
module Agreement {
  import opened Common
  import opened Delivery
  import opened DeliveryInvariant
  import opened DeliveryTheorems
  import opened MlsGroup

  datatype Outcome = Unknown | WasAccepted | WasRejected

  datatype Device = Device(group: Option<Group>, operation: OperationId, outcome: Outcome)

  datatype Answer = Answer(req: Submission, accepted: bool)

  datatype System = System(
    channel: ChannelId, db: Db, devices: map<DeviceId, Device>, sent: set<Submission>, answers: set<Answer>)

  datatype Event =
    | Serve(op: Op)
    | Create(d: DeviceId)
    | Prepare(d: DeviceId, operation: OperationId, nonce: nat)
    | SendCommit(d: DeviceId, user: UserId, isOwner: bool, now: Time)
    | SendWelcome(d: DeviceId, epoch: nat, joiner: DeviceId, operation: OperationId, user: UserId, now: Time)
    | Handle(req: Submission)
    | Learn(d: DeviceId, answer: Answer)
    | AcceptPending(d: DeviceId)
    | RejectPending(d: DeviceId)
    | Process(d: DeviceId, i: nat)  // another device's commit, or the own pending one, taken from the log
    | Join(d: DeviceId, i: nat)

  /** The log of a channel; empty before its group is initialized. */
  ghost function LogOf(db: Db, c: ChannelId): seq<MessageRow>
    requires Contiguous(db)
  {
    if c in db.channels then Log(db, c) else []
  }

  /** The accepted commits of a channel, in order. */
  ghost function CommitRows(db: Db, c: ChannelId): seq<MessageRow>
    requires Contiguous(db)
  {
    CommitsOf(LogOf(db, c))
  }

  ghost function Wires(rows: seq<MessageRow>): seq<Wire> {
    seq(|rows|, i requires 0 <= i < |rows| => rows[i].wire)
  }

  ghost function HistoryOf(db: Db, c: ChannelId): seq<Wire>
    requires Contiguous(db)
  {
    Wires(CommitRows(db, c))
  }

  ghost function ChannelLog(s: System): seq<MessageRow>
    requires Contiguous(s.db)
  {
    LogOf(s.db, s.channel)
  }

  ghost function Commits(s: System): seq<MessageRow>
    requires Contiguous(s.db)
  {
    CommitRows(s.db, s.channel)
  }

  ghost function History(s: System): seq<Wire>
    requires Contiguous(s.db)
  {
    HistoryOf(s.db, s.channel)
  }

  predicate HasGroup(s: System, d: DeviceId) {
    d in s.devices && s.devices[d].group.Some?
  }

  predicate HasPending(s: System, d: DeviceId) {
    HasGroup(s, d) && s.devices[d].group.value.pending.Some?
  }

  function GroupOf(s: System, d: DeviceId): Group
    requires HasGroup(s, d)
  {
    s.devices[d].group.value
  }

  function WithDevice(s: System, d: DeviceId, device: Device): System {
    s.(devices := s.devices[d := device])
  }

  function WithGroup(s: System, d: DeviceId, g: Group): System
    requires d in s.devices
  {
    WithDevice(s, d, s.devices[d].(group := Some(g)))
  }

  function CommitSubmission(s: System, d: DeviceId, user: UserId, isOwner: bool, now: Time): Submission
    requires HasPending(s, d)
  {
    var g := GroupOf(s, d);
    Submission(s.channel, user, d, isOwner, s.devices[d].operation, Commit, Epoch(g) + 1, Some(Epoch(g)),
               None, g.pending.value, None, now)
  }

  /** Entry i of the log is among what the device is given when it fetches the channel. */
  ghost predicate Fetches(s: System, d: DeviceId, i: nat)
    requires Contiguous(s.db)
  {
    && i < |ChannelLog(s)|
    && Delivered(i + 1, ChannelLog(s)[i]) in Visible(s.db, s.channel, d, 0, |ChannelLog(s)|)
  }

  /** Requests that only devices of this system may make. */
  predicate Reserved(s: System, op: Op) {
    op.SubmitOp? && op.req.channel == s.channel && (op.req.messageClass == Commit || op.req.messageClass == Welcome)
  }

  ghost predicate Enabled(s: System, e: Event)
    requires Contiguous(s.db)
  {
    match e
    case Serve(op) => !Reserved(s, op)
    case Create(d) =>
      d in s.devices && s.devices[d].group == None
      && s.channel in s.db.channels && s.db.channels[s.channel].initializedBy == d
    case Prepare(d, operation, nonce) => HasGroup(s, d) && GroupOf(s, d).pending == None
    case SendCommit(d, user, isOwner, now) => HasPending(s, d)
    case SendWelcome(d, epoch, joiner, operation, user, now) =>
      HasGroup(s, d) && GroupOf(s, d).joinedAt < epoch <= Epoch(GroupOf(s, d))
    case Handle(req) => req in s.sent
    case Learn(d, answer) =>
      && answer in s.answers && HasPending(s, d)
      && answer.req.messageClass == Commit
      && answer.req.device == d && answer.req.operation == s.devices[d].operation
      && answer.req.wire == GroupOf(s, d).pending.value
    case AcceptPending(d) => HasPending(s, d) && s.devices[d].outcome == WasAccepted
    case RejectPending(d) => HasPending(s, d) && s.devices[d].outcome == WasRejected
    case Process(d, i) =>
      && HasGroup(s, d) && Fetches(s, d, i)
      && var row := ChannelLog(s)[i];
      && row.messageClass == Commit && row.parentEpoch == Some(Epoch(GroupOf(s, d)))
      && (GroupOf(s, d).pending == Some(row.wire) || Processable(GroupOf(s, d), d, row.wire))
    case Join(d, i) =>
      && d in s.devices && s.devices[d].group == None && Fetches(s, d, i)
      && var row := ChannelLog(s)[i];
      && row.messageClass == Welcome && row.wire.WelcomeWire?
  }

  ghost function Next(s: System, e: Event): System
    requires Contiguous(s.db) && Enabled(s, e)
  {
    match e
    case Serve(op) => s.(db := Step(s.db, op))
    case Create(d) => WithGroup(s, d, Group(0, [], None))
    case Prepare(d, operation, nonce) =>
      var g := GroupOf(s, d);
      WithDevice(s, d, Device(Some(g.(pending := Some(CommitBy(g, d, nonce)))), operation, Unknown))
    case SendCommit(d, user, isOwner, now) => s.(sent := s.sent + {CommitSubmission(s, d, user, isOwner, now)})
    case SendWelcome(d, epoch, joiner, operation, user, now) =>
      s.(sent := s.sent + {Submission(s.channel, user, d, false, operation, Welcome, epoch, None, Some(joiner),
                                      WelcomeAt(GroupOf(s, d), epoch), None, now)})
    case Handle(req) =>
      s.(db := Submitted(s.db, req), answers := s.answers + {Answer(req, Decide(s.db, req).Accepted?)})
    case Learn(d, answer) =>
      WithDevice(s, d, s.devices[d].(outcome := if answer.accepted then WasAccepted else WasRejected))
    case AcceptPending(d) => WithGroup(s, d, Merged(GroupOf(s, d), GroupOf(s, d).pending.value))
    case RejectPending(d) => WithGroup(s, d, GroupOf(s, d).(pending := None))
    case Process(d, i) => WithGroup(s, d, Merged(GroupOf(s, d), ChannelLog(s)[i].wire))
    case Join(d, i) => WithGroup(s, d, Joined(ChannelLog(s)[i].wire))
  }

  // ---------------------------------------------------------------- the invariant

  /** A commit made by the device that submitted it, for exactly the commits before it. */
  ghost predicate IsLinked(row: MessageRow, before: seq<MessageRow>) {
    row.wire.CommitWire? && row.wire.author == row.device && row.wire.basis == Wires(before)
  }

  /** Every accepted commit was made for exactly the commits accepted before it. */
  ghost predicate CommitsLinked(rows: seq<MessageRow>) {
    forall k :: 0 <= k < |rows| ==> IsLinked(rows[k], rows[..k])
  }

  predicate WelcomeOk(row: MessageRow, h: seq<Wire>) {
    row.messageClass == Welcome ==> row.wire.WelcomeWire? && row.wire.history <= h
  }

  /** Welcomes in the log hand out a beginning of the accepted history. */
  predicate WelcomesOk(log: seq<MessageRow>, h: seq<Wire>) {
    forall i :: 0 <= i < |log| ==> WelcomeOk(log[i], h)
  }

  /** A commit request is for some beginning of the accepted history. */
  predicate CommitRequestOk(h: seq<Wire>, req: Submission) {
    && req.wire.CommitWire? && req.wire.author == req.device && req.wire.basis <= h
    && req.parentEpoch == Some(|req.wire.basis|) && req.acceptedEpoch == |req.wire.basis| + 1
    && req.recipient == None
  }

  /** What the devices of this system submit; commits only once the channel has begun. */
  predicate SubmissionOk(channel: ChannelId, begun: bool, h: seq<Wire>, req: Submission) {
    && req.channel == channel && req.event == None
    && (if req.messageClass == Commit then begun && CommitRequestOk(h, req)
        else req.messageClass == Welcome && req.wire.WelcomeWire? && req.wire.history <= h)
  }

  /** A commit submission that can no longer be stored afresh. */
  ghost predicate Settled(db: Db, h: seq<Wire>, req: Submission)
    requires req.wire.CommitWire?
  {
    |req.wire.basis| < |h| || OperationUsed(db, req.device, req.operation)
  }

  /** This very commit submission is stored. */
  predicate IsStoredAt(db: Db, channel: ChannelId, p: Position, req: Submission) {
    && IsOperation(db, p, req.device, req.operation)
    && p.channel == channel && db.messages[p].messageClass == Commit && db.messages[p].wire == req.wire
  }

  ghost predicate IsStored(db: Db, channel: ChannelId, req: Submission) {
    exists p :: IsStoredAt(db, channel, p, req)
  }

  /** The commit of its epoch is this one. */
  predicate IsAccepted(h: seq<Wire>, wire: Wire) {
    wire.CommitWire? && |wire.basis| < |h| && h[|wire.basis|] == wire
  }

  /** What an answer to a commit says stays true. */
  ghost predicate AnswerOk(db: Db, channel: ChannelId, h: seq<Wire>, answer: Answer) {
    var req := answer.req;
    req.messageClass == Commit ==>
      && req.wire.CommitWire?
      && (if answer.accepted then IsAccepted(h, req.wire) else Settled(db, h, req) && !IsStored(db, channel, req))
  }

  predicate GroupOk(h: seq<Wire>, d: DeviceId, g: Group) {
    && g.joinedAt <= Epoch(g) && g.history <= h
    && (g.pending.Some? ==> g.pending.value.CommitWire? && g.pending.value.author == d
                            && g.pending.value.basis == g.history)
  }

  /** A device holds a beginning of the accepted history, and believes accepted what was accepted. */
  predicate DeviceOk(begun: bool, h: seq<Wire>, d: DeviceId, device: Device) {
    device.group.Some? ==>
      && begun && GroupOk(h, d, device.group.value)
      && (device.group.value.pending.Some? && device.outcome == WasAccepted ==>
            IsAccepted(h, device.group.value.pending.value))
  }

  predicate Begun(s: System) {
    s.channel in s.db.channels
  }

  ghost predicate SentOk(s: System)
    requires Contiguous(s.db)
  {
    forall req :: req in s.sent ==> SubmissionOk(s.channel, Begun(s), History(s), req)
  }

  ghost predicate AnswersOk(s: System)
    requires Contiguous(s.db)
  {
    forall answer :: answer in s.answers ==> AnswerOk(s.db, s.channel, History(s), answer)
  }

  ghost predicate DevicesOk(s: System)
    requires Contiguous(s.db)
  {
    forall d :: d in s.devices ==> DeviceOk(Begun(s), History(s), d, s.devices[d])
  }

  ghost predicate ProtocolOk(s: System)
    requires Contiguous(s.db)
  {
    CommitsLinked(Commits(s)) && WelcomesOk(ChannelLog(s), History(s)) && SentOk(s) && AnswersOk(s) && DevicesOk(s)
  }

  ghost predicate SysInv(s: System) {
    Inv(s.db) && ProtocolOk(s)
  }

  // ---------------------------------------------------------------- reading the log

  lemma LogIsOk(db: Db, c: ChannelId)
    requires Contiguous(db) && EpochsOk(db)
    ensures LogOk(LogOf(db, c))
    ensures c in db.channels ==> db.channels[c].currentEpoch == |HistoryOf(db, c)|
  {}

  /** A commit in the log is the accepted commit of its parent epoch. */
  lemma LogCommit(log: seq<MessageRow>, i: nat)
    requires LogOk(log) && i < |log| && log[i].messageClass == Commit
    ensures var row := log[i];
            row.parentEpoch.Some? && row.parentEpoch.value < |CommitsOf(log)|
            && CommitsOf(log)[row.parentEpoch.value] == row
            && row.acceptedEpoch == row.parentEpoch.value + 1 && row.recipient == None
  {
    CommitAt(log, i);
    assert RowOk(log[i], |CommitsOf(log[..i])|);
  }

  /** A stored commit is the accepted commit of its parent epoch. */
  lemma StoredCommit(db: Db, c: ChannelId, p: Position)
    requires Contiguous(db) && EpochsOk(db)
    requires p in db.messages && p.channel == c && db.messages[p].messageClass == Commit
    ensures var row := db.messages[p];
            row.parentEpoch.Some? && row.parentEpoch.value < |CommitRows(db, c)|
            && CommitRows(db, c)[row.parentEpoch.value] == row
            && row.acceptedEpoch == row.parentEpoch.value + 1 && row.recipient == None
  {
    LogIsOk(db, c);
    assert LogOf(db, c)[p.sequence - 1] == db.messages[p];
    LogCommit(LogOf(db, c), p.sequence - 1);
  }

  /** The accepted commits stand in the messages table. */
  lemma AcceptedIsStored(db: Db, c: ChannelId, k: nat) returns (p: Position)
    requires Contiguous(db) && EpochsOk(db) && k < |CommitRows(db, c)|
    ensures p in db.messages && p.channel == c && db.messages[p] == CommitRows(db, c)[k]
    ensures db.messages[p].messageClass == Commit
  {
    LogIsOk(db, c);
    var i := CommitsComeFrom(LogOf(db, c), k);
    p := Position(c, i + 1);
  }

  lemma WiresOfPrefix(rows: seq<MessageRow>, k: nat)
    requires k <= |rows|
    ensures Wires(rows[..k]) == Wires(rows)[..k]
  {}

  lemma WiresOfAppend(rows: seq<MessageRow>, row: MessageRow)
    ensures Wires(rows + [row]) == Wires(rows) + [row.wire]
  {}

  /** An accepted commit is accepted under its basis. */
  lemma LinkedIsAccepted(rows: seq<MessageRow>, k: nat)
    requires CommitsLinked(rows) && k < |rows|
    ensures IsAccepted(Wires(rows), rows[k].wire) && |rows[k].wire.basis| == k && rows[k].wire.author == rows[k].device
    ensures rows[k].wire.basis == Wires(rows)[..k]
  {
    assert IsLinked(rows[k], rows[..k]);
    WiresOfPrefix(rows, k);
  }

  lemma LinkedAppend(rows: seq<MessageRow>, row: MessageRow)
    requires CommitsLinked(rows) && IsLinked(row, rows)
    ensures CommitsLinked(rows + [row])
  {
    var more := rows + [row];
    forall k | 0 <= k < |more| ensures IsLinked(more[k], more[..k]) {
      assert more[..k] == rows[..k];
      if k == |rows| {
        assert rows[..k] == rows;
      } else {
        assert IsLinked(rows[k], rows[..k]);
      }
    }
  }

  lemma WelcomesAppend(log: seq<MessageRow>, row: MessageRow, h: seq<Wire>)
    requires WelcomesOk(log, h) && WelcomeOk(row, h)
    ensures WelcomesOk(log + [row], h)
  {}

  lemma WelcomesLater(log: seq<MessageRow>, h: seq<Wire>, more: seq<Wire>)
    requires WelcomesOk(log, h) && h <= more
    ensures WelcomesOk(log, more)
  {
    forall i | 0 <= i < |log| ensures WelcomeOk(log[i], more) {
      assert WelcomeOk(log[i], h);
    }
  }

  // ---------------------------------------------------------------- steps of one device

  lemma WithGroupOk(s: System, d: DeviceId, device: Device)
    requires Contiguous(s.db) && ProtocolOk(s) && DeviceOk(Begun(s), History(s), d, device)
    ensures ProtocolOk(WithDevice(s, d, device))
  {
    var s' := WithDevice(s, d, device);
    forall k | k in s'.devices ensures DeviceOk(Begun(s), History(s), k, s'.devices[k]) {
      assert k in s.devices ==> DeviceOk(Begun(s), History(s), k, s.devices[k]);
    }
  }

  lemma PrefixGrows(all: seq<Wire>, part: seq<Wire>)
    requires part <= all && |part| < |all|
    ensures part + [all[|part|]] == all[..|part| + 1]
  {}

  /** The next accepted commit brings a group one epoch further. */
  lemma MergedOk(h: seq<Wire>, d: DeviceId, g: Group, wire: Wire)
    requires GroupOk(h, d, g) && Epoch(g) < |h| && h[Epoch(g)] == wire
    ensures GroupOk(h, d, Merged(g, wire))
  {
    PrefixGrows(h, g.history);
  }

  /** A device is given every entry of the log except the Welcomes of others. */
  lemma FetchesExactly(s: System, d: DeviceId, i: nat)
    requires Contiguous(s.db) && i < |ChannelLog(s)|
    ensures Fetches(s, d, i)
            <==> (ChannelLog(s)[i].messageClass == Welcome ==> ChannelLog(s)[i].recipient == Some(d))
  {
    VisibleExactly(s.db, s.channel, d, 0, |ChannelLog(s)|, Delivered(i + 1, ChannelLog(s)[i]));
  }

  /** Whatever clients ask for besides commits and Welcomes of this channel may come at any time. */
  lemma OthersAreFree(s: System, op: Op)
    requires Contiguous(s.db)
    ensures Enabled(s, Serve(op))
            <==> (op.SubmitOp? && op.req.channel == s.channel ==>
                    op.req.messageClass == Application || op.req.messageClass == Proposal)
  {}

  /** Only the device that has initialized the channel begins its group. */
  lemma CreatorInitialized(s: System, d: DeviceId)
    requires Contiguous(s.db) && Enabled(s, Create(d))
    ensures s.channel in s.db.channels && s.db.channels[s.channel].initializedBy == d
    ensures Next(s, Create(d)).devices[d].group == Some(Group(0, [], None))
  {}

  /** An answer decides what becomes of the pending commit: accepted, it is merged; rejected, it is dropped. */
  lemma AnswerDecides(s: System, d: DeviceId, answer: Answer)
    requires Contiguous(s.db) && Enabled(s, Learn(d, answer))
    ensures var t, g := Next(s, Learn(d, answer)), GroupOf(s, d);
            if answer.accepted then
              && Enabled(t, AcceptPending(d)) && !Enabled(t, RejectPending(d))
              && Next(t, AcceptPending(d)).devices[d].group
                 == Some(Group(g.joinedAt, g.history + [g.pending.value], None))
            else
              && Enabled(t, RejectPending(d)) && !Enabled(t, AcceptPending(d))
              && Next(t, RejectPending(d)).devices[d].group == Some(Group(g.joinedAt, g.history, None))
  {}

  /** The commit in entry i of the log is the one accepted in its parent epoch. */
  lemma LogEntry(s: System, i: nat)
    requires Contiguous(s.db) && EpochsOk(s.db) && i < |ChannelLog(s)| && ChannelLog(s)[i].messageClass == Commit
    ensures var row := ChannelLog(s)[i];
            row.parentEpoch.Some? && row.parentEpoch.value < |History(s)| && History(s)[row.parentEpoch.value] == row.wire
  {
    LogIsOk(s.db, s.channel);
    LogCommit(ChannelLog(s), i);
  }

  lemma AcceptStep(s: System, d: DeviceId)
    requires Contiguous(s.db) && ProtocolOk(s) && Enabled(s, AcceptPending(d))
    ensures ProtocolOk(Next(s, AcceptPending(d)))
  {
    var device := s.devices[d];
    var g := GroupOf(s, d);
    assert DeviceOk(Begun(s), History(s), d, device);
    MergedOk(History(s), d, g, g.pending.value);
    WithGroupOk(s, d, device.(group := Some(Merged(g, g.pending.value))));
  }

  lemma RejectStep(s: System, d: DeviceId)
    requires Contiguous(s.db) && ProtocolOk(s) && Enabled(s, RejectPending(d))
    ensures ProtocolOk(Next(s, RejectPending(d)))
  {
    assert DeviceOk(Begun(s), History(s), d, s.devices[d]);
    WithGroupOk(s, d, s.devices[d].(group := Some(GroupOf(s, d).(pending := None))));
  }

  lemma ProcessStep(s: System, d: DeviceId, i: nat)
    requires Contiguous(s.db) && EpochsOk(s.db) && ProtocolOk(s) && Enabled(s, Process(d, i))
    ensures ProtocolOk(Next(s, Process(d, i)))
  {
    var wire := ChannelLog(s)[i].wire;
    assert DeviceOk(Begun(s), History(s), d, s.devices[d]);
    LogEntry(s, i);
    MergedOk(History(s), d, GroupOf(s, d), wire);
    WithGroupOk(s, d, s.devices[d].(group := Some(Merged(GroupOf(s, d), wire))));
  }

  lemma CreateStep(s: System, d: DeviceId)
    requires Contiguous(s.db) && ProtocolOk(s) && Enabled(s, Create(d))
    ensures ProtocolOk(Next(s, Create(d)))
  {
    WithGroupOk(s, d, s.devices[d].(group := Some(Group(0, [], None))));
  }

  lemma JoinStep(s: System, d: DeviceId, i: nat)
    requires Contiguous(s.db) && ProtocolOk(s) && Enabled(s, Join(d, i))
    ensures ProtocolOk(Next(s, Join(d, i)))
  {
    assert WelcomeOk(ChannelLog(s)[i], History(s));
    WithGroupOk(s, d, s.devices[d].(group := Some(Joined(ChannelLog(s)[i].wire))));
  }

  lemma PrepareStep(s: System, d: DeviceId, operation: OperationId, nonce: nat)
    requires Contiguous(s.db) && ProtocolOk(s) && Enabled(s, Prepare(d, operation, nonce))
    ensures ProtocolOk(Next(s, Prepare(d, operation, nonce)))
  {
    var g := GroupOf(s, d);
    assert DeviceOk(Begun(s), History(s), d, s.devices[d]);
    WithGroupOk(s, d, Device(Some(g.(pending := Some(CommitBy(g, d, nonce)))), operation, Unknown));
  }

  lemma LearnStep(s: System, d: DeviceId, answer: Answer)
    requires Contiguous(s.db) && ProtocolOk(s) && Enabled(s, Learn(d, answer))
    ensures ProtocolOk(Next(s, Learn(d, answer)))
  {
    assert DeviceOk(Begun(s), History(s), d, s.devices[d]) && AnswerOk(s.db, s.channel, History(s), answer);
    WithGroupOk(s, d, s.devices[d].(outcome := if answer.accepted then WasAccepted else WasRejected));
  }

  // ---------------------------------------------------------------- requests and answers in flight

  lemma SentMore(s: System, req: Submission)
    requires Contiguous(s.db) && ProtocolOk(s) && SubmissionOk(s.channel, Begun(s), History(s), req)
    ensures ProtocolOk(s.(sent := s.sent + {req}))
  {}

  lemma AnswerMore(s: System, answer: Answer)
    requires Contiguous(s.db) && ProtocolOk(s) && AnswerOk(s.db, s.channel, History(s), answer)
    ensures ProtocolOk(s.(answers := s.answers + {answer}))
  {}

  lemma SendCommitStep(s: System, d: DeviceId, user: UserId, isOwner: bool, now: Time)
    requires Contiguous(s.db) && ProtocolOk(s) && HasPending(s, d)
    ensures ProtocolOk(s.(sent := s.sent + {CommitSubmission(s, d, user, isOwner, now)}))
  {
    assert DeviceOk(Begun(s), History(s), d, s.devices[d]);
    SentMore(s, CommitSubmission(s, d, user, isOwner, now));
  }

  lemma SendWelcomeStep(s: System, e: Event)
    requires Contiguous(s.db) && ProtocolOk(s) && e.SendWelcome? && Enabled(s, e)
    ensures ProtocolOk(Next(s, e))
  {
    assert DeviceOk(Begun(s), History(s), e.d, s.devices[e.d]);
    SentMore(s, Submission(s.channel, e.user, e.d, false, e.operation, Welcome, e.epoch, None, Some(e.joiner),
                           WelcomeAt(GroupOf(s, e.d), e.epoch), None, e.now));
  }

  // ---------------------------------------------------------------- steps of the server

  /** Messages stay and the accepted history of the channel only grows. */
  ghost predicate Later(db: Db, db': Db, c: ChannelId)
    requires Contiguous(db) && Contiguous(db')
  {
    && db.channels.Keys <= db'.channels.Keys
    && (forall p :: p in db.messages ==> p in db'.messages && db'.messages[p] == db.messages[p])
    && HistoryOf(db, c) <= HistoryOf(db', c)
  }

  lemma SubmissionLater(channel: ChannelId, begun: bool, begun': bool, h: seq<Wire>, h': seq<Wire>, req: Submission)
    requires SubmissionOk(channel, begun, h, req) && (begun ==> begun') && h <= h'
    ensures SubmissionOk(channel, begun', h', req)
  {}

  lemma DeviceLater(begun: bool, begun': bool, h: seq<Wire>, h': seq<Wire>, d: DeviceId, device: Device)
    requires DeviceOk(begun, h, d, device) && (begun ==> begun') && h <= h'
    ensures DeviceOk(begun', h', d, device)
  {}

  lemma UsedLater(db: Db, db': Db, device: DeviceId, operation: OperationId)
    requires forall p :: p in db.messages ==> p in db'.messages && db'.messages[p] == db.messages[p]
    requires OperationUsed(db, device, operation)
    ensures OperationUsed(db', device, operation)
  {
    var p :| IsOperation(db, p, device, operation);
    assert IsOperation(db', p, device, operation);
  }

  /** No refused commit is among the rows that are new. */
  ghost predicate StillRefused(db: Db, db': Db, c: ChannelId, answer: Answer) {
    answer.req.messageClass == Commit && !answer.accepted ==>
      forall p :: IsStoredAt(db', c, p, answer.req) ==> p in db.messages
  }

  lemma SettledLater(db: Db, db': Db, c: ChannelId, req: Submission)
    requires Contiguous(db) && Contiguous(db') && Later(db, db', c) && req.wire.CommitWire?
    requires Settled(db, HistoryOf(db, c), req)
    ensures Settled(db', HistoryOf(db', c), req)
  {
    if OperationUsed(db, req.device, req.operation) {
      UsedLater(db, db', req.device, req.operation);
    }
  }

  lemma RefusedLater(db: Db, db': Db, c: ChannelId, answer: Answer)
    requires forall p :: p in db.messages ==> p in db'.messages && db'.messages[p] == db.messages[p]
    requires answer.req.messageClass == Commit && !answer.accepted
    requires !IsStored(db, c, answer.req) && StillRefused(db, db', c, answer)
    ensures !IsStored(db', c, answer.req)
  {
    forall p ensures !IsStoredAt(db', c, p, answer.req) {
      assert !IsStoredAt(db, c, p, answer.req);
    }
  }

  lemma AnswerLater(db: Db, db': Db, c: ChannelId, answer: Answer)
    requires Contiguous(db) && Contiguous(db') && Later(db, db', c)
    requires AnswerOk(db, c, HistoryOf(db, c), answer) && StillRefused(db, db', c, answer)
    ensures AnswerOk(db', c, HistoryOf(db', c), answer)
  {
    if answer.req.messageClass == Commit && !answer.accepted {
      SettledLater(db, db', c, answer.req);
      RefusedLater(db, db', c, answer);
    }
  }

  lemma SystemLater(s: System, db': Db)
    requires Contiguous(s.db) && Contiguous(db') && ProtocolOk(s) && Later(s.db, db', s.channel)
    requires CommitsLinked(CommitRows(db', s.channel)) && WelcomesOk(LogOf(db', s.channel), HistoryOf(db', s.channel))
    requires forall answer :: answer in s.answers ==> StillRefused(s.db, db', s.channel, answer)
    ensures ProtocolOk(s.(db := db'))
  {
    var s' := s.(db := db');
    forall req | req in s'.sent ensures SubmissionOk(s'.channel, Begun(s'), History(s'), req) {
      SubmissionLater(s.channel, Begun(s), Begun(s'), History(s), History(s'), req);
    }
    forall answer | answer in s'.answers ensures AnswerOk(db', s'.channel, History(s'), answer) {
      AnswerLater(s.db, db', s.channel, answer);
    }
    forall d | d in s'.devices ensures DeviceOk(Begun(s'), History(s'), d, s'.devices[d]) {
      DeviceLater(Begun(s), Begun(s'), History(s), History(s'), d, s.devices[d]);
    }
  }

  ghost predicate Stores(db: Db, op: Op) {
    op.SubmitOp? && FreshlyAccepted(db, op.req)
  }

  lemma ServedMessages(db: Db, op: Op)
    ensures forall p :: p in Step(db, op).messages && p !in db.messages ==>
              Stores(db, op) && p.channel == op.req.channel && Step(db, op).messages[p] == NewRow(op.req)
  {}

  lemma QuietLog(db: Db, op: Op, c: ChannelId)
    requires Contiguous(db) && Contiguous(Step(db, op)) && !op.SubmitOp?
    ensures LogOf(Step(db, op), c) == LogOf(db, c)
  {}

  lemma UnstoredLog(db: Db, op: Op)
    requires op.SubmitOp? && !FreshlyAccepted(db, op.req)
    ensures Step(db, op) == db
  {}

  lemma StoredStep(db: Db, op: Op)
    requires Stores(db, op)
    ensures op.req.channel in db.channels && Step(db, op) == Stored(db, op.req)
  {
    AcceptedMeans(db, op.req);
  }

  lemma ServedLog(db: Db, op: Op, c: ChannelId)
    requires Contiguous(db) && Contiguous(Step(db, op))
    ensures Stores(db, op) && op.req.channel == c ==> LogOf(Step(db, op), c) == LogOf(db, c) + [NewRow(op.req)]
    ensures !(Stores(db, op) && op.req.channel == c) ==> LogOf(Step(db, op), c) == LogOf(db, c)
  {
    if Stores(db, op) {
      StoredStep(db, op);
      StoredLog(db, op.req);
    } else if op.SubmitOp? {
      UnstoredLog(db, op);
    } else {
      QuietLog(db, op, c);
    }
  }

  lemma AppendedRows(db: Db, db': Db, c: ChannelId, row: MessageRow)
    requires Contiguous(db) && Contiguous(db') && row.messageClass != Commit
    requires LogOf(db', c) == LogOf(db, c) + [row]
    ensures CommitRows(db', c) == CommitRows(db, c)
  {
    CommitsOfAppend(LogOf(db, c), row);
  }

  /** What any other client does adds no commit to this channel. */
  lemma ServedRows(s: System, op: Op)
    requires Contiguous(s.db) && Contiguous(Step(s.db, op)) && !Reserved(s, op)
    ensures CommitRows(Step(s.db, op), s.channel) == Commits(s)
  {
    ServedLog(s.db, op, s.channel);
    if Stores(s.db, op) && op.req.channel == s.channel {
      AppendedRows(s.db, Step(s.db, op), s.channel, NewRow(op.req));
    }
  }

  lemma ServedWelcomes(s: System, op: Op)
    requires Contiguous(s.db) && Contiguous(Step(s.db, op)) && !Reserved(s, op)
    requires WelcomesOk(ChannelLog(s), History(s))
    ensures WelcomesOk(LogOf(Step(s.db, op), s.channel), History(s))
  {
    ServedLog(s.db, op, s.channel);
    if Stores(s.db, op) && op.req.channel == s.channel {
      WelcomesAppend(ChannelLog(s), NewRow(op.req), History(s));
    }
  }

  lemma ServedLater(s: System, op: Op)
    requires Contiguous(s.db) && Contiguous(Step(s.db, op)) && !Reserved(s, op)
    ensures Later(s.db, Step(s.db, op), s.channel)
  {
    StepGrows(s.db, op);
    ServedRows(s, op);
    assert HistoryOf(Step(s.db, op), s.channel) == History(s);
  }

  lemma ServedStillRefused(s: System, op: Op, answer: Answer)
    requires !Reserved(s, op)
    ensures StillRefused(s.db, Step(s.db, op), s.channel, answer)
  {
    ServedMessages(s.db, op);
  }

  lemma ServeStep(s: System, op: Op)
    requires Contiguous(s.db) && Contiguous(Step(s.db, op)) && ProtocolOk(s) && !Reserved(s, op)
    ensures ProtocolOk(s.(db := Step(s.db, op)))
  {
    ServedRows(s, op);
    ServedWelcomes(s, op);
    ServedLater(s, op);
    forall answer | answer in s.answers ensures StillRefused(s.db, Step(s.db, op), s.channel, answer) {
      ServedStillRefused(s, op, answer);
    }
    SystemLater(s, Step(s.db, op));
  }

  // ---------------------------------------------------------------- the server handles a device's request

  lemma NewMessages(db: Db, req: Submission)
    requires req.channel in db.channels
    ensures forall p :: p in Stored(db, req).messages && p !in db.messages ==> Stored(db, req).messages[p] == NewRow(req)
    ensures Contiguous(db) ==>
              forall p :: p in db.messages ==> p in Stored(db, req).messages && Stored(db, req).messages[p] == db.messages[p]
  {}

  /** A commit that is stored afresh is the one for the current history. */
  lemma FreshCommit(s: System, req: Submission)
    requires Contiguous(s.db) && EpochsOk(s.db) && SentOk(s)
    requires req in s.sent && req.messageClass == Commit && Storable(s.db, req)
    ensures req.channel == s.channel && req.wire.CommitWire? && req.wire.author == req.device
    ensures req.wire.basis == History(s)
  {
    LogIsOk(s.db, s.channel);
  }

  lemma FreshCommitLog(s: System, req: Submission)
    requires Contiguous(s.db) && req.channel == s.channel && req.messageClass == Commit && req.channel in s.db.channels
    ensures var db' := Stored(s.db, req);
            && Contiguous(db') && LogOf(db', s.channel) == ChannelLog(s) + [NewRow(req)]
            && CommitRows(db', s.channel) == Commits(s) + [NewRow(req)]
            && HistoryOf(db', s.channel) == History(s) + [req.wire]
  {
    StoredLog(s.db, req);
    CommitsOfAppend(ChannelLog(s), NewRow(req));
    WiresOfAppend(Commits(s), NewRow(req));
  }

  /** A refused commit cannot be the one that is stored now. */
  lemma FreshIsNotRefused(s: System, req: Submission, answer: Answer)
    requires Contiguous(s.db) && Storable(s.db, req) && req.wire.CommitWire? && req.wire.basis == History(s)
    requires AnswerOk(s.db, s.channel, History(s), answer)
    ensures StillRefused(s.db, Stored(s.db, req), s.channel, answer)
  {
    NewMessages(s.db, req);
  }

  lemma FreshCommitStep(s: System, req: Submission)
    requires Contiguous(s.db) && EpochsOk(s.db) && ProtocolOk(s)
    requires req in s.sent && req.messageClass == Commit && Storable(s.db, req)
    ensures Contiguous(Stored(s.db, req)) && ProtocolOk(s.(db := Stored(s.db, req)))
    ensures IsAccepted(HistoryOf(Stored(s.db, req), s.channel), req.wire)
  {
    var db' := Stored(s.db, req);
    FreshCommit(s, req);
    FreshCommitLog(s, req);
    NewMessages(s.db, req);
    LinkedAppend(Commits(s), NewRow(req));
    WelcomesAppend(ChannelLog(s), NewRow(req), History(s));
    WelcomesLater(LogOf(db', s.channel), History(s), HistoryOf(db', s.channel));
    forall answer | answer in s.answers ensures StillRefused(s.db, db', s.channel, answer) {
      FreshIsNotRefused(s, req, answer);
    }
    SystemLater(s, db');
  }

  lemma FreshWelcomeLog(s: System, req: Submission)
    requires Contiguous(s.db) && req.channel == s.channel && req.messageClass != Commit && req.channel in s.db.channels
    ensures var db' := Stored(s.db, req);
            && Contiguous(db') && LogOf(db', s.channel) == ChannelLog(s) + [NewRow(req)]
            && CommitRows(db', s.channel) == Commits(s)
  {
    StoredLog(s.db, req);
    CommitsOfAppend(ChannelLog(s), NewRow(req));
  }

  lemma FreshWelcomeStep(s: System, req: Submission)
    requires Contiguous(s.db) && ProtocolOk(s)
    requires req in s.sent && req.messageClass != Commit && Storable(s.db, req)
    ensures Contiguous(Stored(s.db, req)) && ProtocolOk(s.(db := Stored(s.db, req)))
  {
    assert SubmissionOk(s.channel, Begun(s), History(s), req);
    FreshWelcomeLog(s, req);
    NewMessages(s.db, req);
    WelcomesAppend(ChannelLog(s), NewRow(req), History(s));
    SystemLater(s, Stored(s.db, req));
  }

  lemma FreshStep(s: System, req: Submission)
    requires Contiguous(s.db) && EpochsOk(s.db) && ProtocolOk(s) && req in s.sent && Storable(s.db, req)
    ensures Contiguous(Stored(s.db, req)) && ProtocolOk(s.(db := Stored(s.db, req)))
    ensures req.messageClass == Commit ==> IsAccepted(HistoryOf(Stored(s.db, req), s.channel), req.wire)
  {
    if req.messageClass == Commit {
      FreshCommitStep(s, req);
    } else {
      FreshWelcomeStep(s, req);
    }
  }

  lemma ReplayMeans(db: Db, req: Submission)
    requires Decide(db, req).Accepted? && !FreshlyAccepted(db, req)
    ensures var p := Decide(db, req).at;
            p in db.messages && p.channel == req.channel && SameRow(db.messages[p], req)
  {}

  /** A request that is answered with a stored row is the commit of its epoch. */
  lemma ReplayedAnswer(s: System, req: Submission)
    requires Contiguous(s.db) && EpochsOk(s.db) && SubmissionOk(s.channel, Begun(s), History(s), req)
    requires req.messageClass == Commit && Decide(s.db, req).Accepted? && !FreshlyAccepted(s.db, req)
    ensures IsAccepted(History(s), req.wire)
  {
    ReplayMeans(s.db, req);
    StoredCommit(s.db, s.channel, Decide(s.db, req).at);
  }

  /** An accepted answer to a commit, new or repeated: from then on it is the commit of its epoch. */
  lemma AcceptedAnswer(s: System, req: Submission)
    requires SysInv(s) && req in s.sent && req.messageClass == Commit && Decide(s.db, req).Accepted?
    ensures Contiguous(Submitted(s.db, req)) && IsAccepted(HistoryOf(Submitted(s.db, req), s.channel), req.wire)
  {
    assert SubmissionOk(s.channel, Begun(s), History(s), req);
    AcceptedMeans(s.db, req);
    if FreshlyAccepted(s.db, req) {
      FreshCommitStep(s, req);
    } else {
      ReplayedAnswer(s, req);
    }
  }

  lemma StoredIsSame(s: System, req: Submission, p: Position)
    requires Contiguous(s.db) && EpochsOk(s.db) && EventsOk(s.db) && CommitsLinked(Commits(s))
    requires SubmissionOk(s.channel, Begun(s), History(s), req) && req.messageClass == Commit
    requires IsStoredAt(s.db, s.channel, p, req)
    ensures SameOperation(s.db, p, req)
  {
    StoredCommit(s.db, s.channel, p);
    LinkedIsAccepted(Commits(s), s.db.messages[p].parentEpoch.value);
    forall id ensures !IsEventAt(s.db, id, p) {
      assert id in s.db.events ==> EventMatches(s.db, id);
    }
  }

  /** A commit with an unused operation id is refused only for its epoch. */
  lemma RefusedForEpoch(db: Db, req: Submission)
    requires Prevalidated(db, req) && req.messageClass == Commit && req.channel in db.channels && req.event == None
    requires Decide(db, req).Rejected?
    ensures OperationUsed(db, req.device, req.operation) || !EpochOk(db.channels[req.channel], req)
  {}

  /** A refused answer to a commit: it is not stored, and can no longer be. */
  lemma RefusedAnswer(s: System, req: Submission)
    requires SysInv(s) && req in s.sent && req.messageClass == Commit && Decide(s.db, req).Rejected?
    ensures req.wire.CommitWire? && Settled(s.db, History(s), req) && !IsStored(s.db, s.channel, req)
  {
    assert SubmissionOk(s.channel, Begun(s), History(s), req);
    LogIsOk(s.db, s.channel);
    assert Prevalidated(s.db, req);
    RefusedForEpoch(s.db, req);
    forall p ensures !IsStoredAt(s.db, s.channel, p, req) {
      if IsStoredAt(s.db, s.channel, p, req) {
        StoredIsSame(s, req, p);
        UsedOperationDecision(s.db, p, req);
        assert false;
      }
    }
  }

  lemma RejectedChangesNothing(db: Db, req: Submission)
    requires Decide(db, req).Rejected?
    ensures Submitted(db, req) == db
  {}

  lemma HandledAnswer(s: System, req: Submission)
    requires SysInv(s) && req in s.sent && Contiguous(Submitted(s.db, req))
    ensures AnswerOk(Submitted(s.db, req), s.channel, HistoryOf(Submitted(s.db, req), s.channel),
                     Answer(req, Decide(s.db, req).Accepted?))
  {
    if req.messageClass == Commit {
      if Decide(s.db, req).Accepted? {
        AcceptedAnswer(s, req);
      } else {
        RefusedAnswer(s, req);
        RejectedChangesNothing(s.db, req);
      }
    }
  }

  lemma HandledSystem(s: System, req: Submission)
    requires SysInv(s) && req in s.sent && Contiguous(Submitted(s.db, req))
    ensures ProtocolOk(s.(db := Submitted(s.db, req)))
  {
    AcceptedMeans(s.db, req);
    if FreshlyAccepted(s.db, req) {
      FreshStep(s, req);
    } else {
      assert s.(db := Submitted(s.db, req)) == s;
    }
  }

  lemma HandleStep(s: System, req: Submission)
    requires SysInv(s) && req in s.sent
    ensures SysInv(Next(s, Handle(req)))
  {
    SubmittedKeepsInv(s.db, req);
    HandledSystem(s, req);
    HandledAnswer(s, req);
    AnswerMore(s.(db := Submitted(s.db, req)), Answer(req, Decide(s.db, req).Accepted?));
  }

  // ---------------------------------------------------------------- runs of the whole system

  predicate IsDeviceEvent(e: Event) {
    !e.Serve? && !e.Handle?
  }

  lemma DeviceEventsKeepDb(s: System, e: Event)
    requires Contiguous(s.db) && Enabled(s, e) && IsDeviceEvent(e)
    ensures Next(s, e).db == s.db && Next(s, e).channel == s.channel && Next(s, e).answers == s.answers
  {}

  lemma DeviceSteps(s: System, e: Event)
    requires Contiguous(s.db) && EpochsOk(s.db) && ProtocolOk(s) && Enabled(s, e) && IsDeviceEvent(e)
    requires Contiguous(Next(s, e).db)
    ensures ProtocolOk(Next(s, e))
  {
    match e
    case Create(d) => CreateStep(s, d);
    case Prepare(d, operation, nonce) => PrepareStep(s, d, operation, nonce);
    case SendCommit(d, user, isOwner, now) => SendCommitStep(s, d, user, isOwner, now);
    case SendWelcome(d, epoch, joiner, operation, user, now) => SendWelcomeStep(s, e);
    case Learn(d, answer) => LearnStep(s, d, answer);
    case AcceptPending(d) => AcceptStep(s, d);
    case RejectPending(d) => RejectStep(s, d);
    case Process(d, i) => ProcessStep(s, d, i);
    case Join(d, i) => JoinStep(s, d, i);
  }

  /** Every step of the server, of a device and of the network keeps the invariant. */
  lemma SystemStep(s: System, e: Event)
    requires SysInv(s) && Enabled(s, e)
    ensures SysInv(Next(s, e)) && Next(s, e).channel == s.channel
  {
    if e.Serve? {
      StepKeepsInv(s.db, e.op);
      ServeStep(s, e.op);
    } else if e.Handle? {
      HandleStep(s, e.req);
    } else {
      DeviceEventsKeepDb(s, e);
      DeviceSteps(s, e);
    }
  }

  /** Accepted commits are never taken back, by any event. */
  lemma RowsStay(s: System, e: Event)
    requires SysInv(s) && Enabled(s, e) && Contiguous(Next(s, e).db) && Next(s, e).channel == s.channel
    ensures Commits(s) <= Commits(Next(s, e)) && (Begun(s) ==> Begun(Next(s, e)))
    ensures !e.Handle? ==> Commits(Next(s, e)) == Commits(s)
  {
    if e.Serve? {
      ServedRows(s, e.op);
      StepGrows(s.db, e.op);
    } else if e.Handle? {
      HandledRows(s, e.req);
    } else {
      DeviceEventsKeepDb(s, e);
    }
  }

  lemma HandledRows(s: System, req: Submission)
    requires SysInv(s) && req in s.sent && Contiguous(Submitted(s.db, req))
    ensures Commits(s) <= CommitRows(Submitted(s.db, req), s.channel)
    ensures Begun(s) ==> s.channel in Submitted(s.db, req).channels
    ensures Storable(s.db, req) && req.messageClass == Commit ==>
              CommitRows(Submitted(s.db, req), s.channel) <= Commits(s) + [NewRow(req)]
    ensures !(Storable(s.db, req) && req.messageClass == Commit) ==>
              CommitRows(Submitted(s.db, req), s.channel) == Commits(s)
  {
    AcceptedMeans(s.db, req);
    assert SubmissionOk(s.channel, Begun(s), History(s), req);
    if FreshlyAccepted(s.db, req) {
      if req.messageClass == Commit {
        FreshCommitLog(s, req);
      } else {
        FreshWelcomeLog(s, req);
      }
    }
  }

  /** An event that is not possible in its state does not happen. */
  ghost function After(s: System, e: Event): (t: System)
    requires SysInv(s)
    ensures SysInv(t) && t.channel == s.channel
  {
    if Enabled(s, e) then
      SystemStep(s, e);
      Next(s, e)
    else s
  }

  /** Any interleaving of events. */
  ghost function SystemRun(s: System, events: seq<Event>): (t: System)
    requires SysInv(s)
    ensures SysInv(t) && t.channel == s.channel
  {
    if events == [] then s else After(SystemRun(s, events[..|events| - 1]), events[|events| - 1])
  }

  lemma RunSnoc(s: System, events: seq<Event>, e: Event, longer: seq<Event>)
    requires SysInv(s) && longer == events + [e]
    ensures SystemRun(s, longer) == After(SystemRun(s, events), e)
  {
    assert longer[..|longer| - 1] == events;
  }

  /** A possible event extends a run by its step. */
  lemma RunNext(s: System, events: seq<Event>, e: Event)
    requires SysInv(s) && Enabled(SystemRun(s, events), e)
    ensures SystemRun(s, events + [e]) == Next(SystemRun(s, events), e)
  {
    RunSnoc(s, events, e, events + [e]);
  }

  function Start(channel: ChannelId, encrypted: set<ChannelId>, devices: set<DeviceId>): System {
    System(channel, Empty(encrypted), map d | d in devices :: Device(None, 0, Unknown), {}, {})
  }

  lemma StartInv(channel: ChannelId, encrypted: set<ChannelId>, devices: set<DeviceId>)
    ensures SysInv(Start(channel, encrypted, devices))
  {
    EmptyInv(encrypted);
  }

  /** A device has merged a beginning of the accepted commits. */
  lemma MergedPrefix(t: System, d: DeviceId)
    requires Contiguous(t.db) && DevicesOk(t) && HasGroup(t, d)
    ensures var g := GroupOf(t, d);
            && g.joinedAt <= Epoch(g) <= |History(t)|
            && g.history == History(t)[..Epoch(g)]
            && g.history[g.joinedAt..] == History(t)[g.joinedAt..Epoch(g)]
  {
    assert DeviceOk(Begun(t), History(t), d, t.devices[d]);
  }

  lemma PrefixesAgree(all: seq<Wire>, a: seq<Wire>, b: seq<Wire>)
    requires a <= all && b <= all && |a| <= |b|
    ensures a == b[..|a|]
  {}

  /** Two devices hold one history, as far as the shorter one goes, and it is the server's. */
  ghost predicate Agree(t: System, a: DeviceId, b: DeviceId)
    requires Contiguous(t.db) && HasGroup(t, a) && HasGroup(t, b)
  {
    var g, h := GroupOf(t, a), GroupOf(t, b);
    && g.joinedAt <= Epoch(g) <= |History(t)|
    && g.history[g.joinedAt..] == History(t)[g.joinedAt..Epoch(g)]
    && (Epoch(g) == Epoch(h) ==> g.history == h.history)
    && (Epoch(g) <= Epoch(h) ==> g.history == h.history[..Epoch(g)])
  }

  lemma DevicesAgree(t: System, a: DeviceId, b: DeviceId)
    requires Contiguous(t.db) && DevicesOk(t) && HasGroup(t, a) && HasGroup(t, b)
    ensures Agree(t, a, b)
  {
    var g, h := GroupOf(t, a), GroupOf(t, b);
    MergedPrefix(t, a);
    MergedPrefix(t, b);
    if Epoch(g) <= Epoch(h) {
      PrefixesAgree(History(t), g.history, h.history);
    }
  }

  /**
   Agreement without forks. After any interleaving, the commits a device has merged are exactly a
   contiguous run of the channel's accepted commits from its join epoch, two devices in the same
   epoch share one commit history, and otherwise one history begins the other.
   */
  lemma AgreementWithoutForks(s: System, events: seq<Event>, a: DeviceId, b: DeviceId)
    requires SysInv(s) && HasGroup(SystemRun(s, events), a) && HasGroup(SystemRun(s, events), b)
    ensures var t := SystemRun(s, events);
            var g, h := GroupOf(t, a), GroupOf(t, b);
            && g.joinedAt <= Epoch(g) <= |History(t)|
            && g.history[g.joinedAt..] == History(t)[g.joinedAt..Epoch(g)]
            && (Epoch(g) == Epoch(h) ==> g.history == h.history)
            && (Epoch(g) <= Epoch(h) ==> g.history == h.history[..Epoch(g)])
  {
    DevicesAgree(SystemRun(s, events), a, b);
  }
}
