/**
 Devices that keep their state are never left behind: whatever a device has sent or prepared, it can
 process the log up to the accepted history. Where a device has gone back to an older state, exactly
 its own accepted commits are in its way.
 */
module Progress {
  import opened Common
  import opened Delivery
  import opened DeliveryInvariant
  import opened DeliveryTheorems
  import opened MlsGroup
  import opened Agreement

  // ---------------------------------------------------------------- what is in a device's way

  /**
   Commit k of the log is the device's own, and it is not the pending one that comes next. The device is
   its author, so it cannot process it, and it cannot accept it either.
   */
  predicate OwnAhead(rows: seq<MessageRow>, d: DeviceId, g: Group, k: nat) {
    && Epoch(g) <= k < |rows| && rows[k].device == d
    && !(k == Epoch(g) && g.pending == Some(rows[k].wire))
  }

  ghost predicate Obstructed(rows: seq<MessageRow>, d: DeviceId, g: Group) {
    exists k: nat :: OwnAhead(rows, d, g, k)
  }

  ghost predicate Blocked(t: System, d: DeviceId)
    requires Contiguous(t.db)
  {
    HasGroup(t, d) && Obstructed(Commits(t), d, GroupOf(t, d))
  }

  lemma NextCommit(t: System, k: nat) returns (i: nat)
    requires Contiguous(t.db) && EpochsOk(t.db) && k < |Commits(t)|
    ensures i < |ChannelLog(t)| && ChannelLog(t)[i] == Commits(t)[k]
    ensures ChannelLog(t)[i].messageClass == Commit && ChannelLog(t)[i].parentEpoch == Some(k)
  {
    LogIsOk(t.db, t.channel);
    i := CommitsComeFrom(ChannelLog(t), k);
    CommitAt(ChannelLog(t), i);
  }

  /** An unobstructed group takes the next accepted commit. */
  lemma TakesNext(rows: seq<MessageRow>, d: DeviceId, g: Group)
    requires CommitsLinked(rows) && GroupOk(Wires(rows), d, g) && Epoch(g) < |rows| && !Obstructed(rows, d, g)
    ensures g.pending == Some(rows[Epoch(g)].wire) || Processable(g, d, rows[Epoch(g)].wire)
  {
    LinkedIsAccepted(rows, Epoch(g));
    assert !OwnAhead(rows, d, g, Epoch(g));
  }

  /** Only this device processes log entries. */
  predicate Processing(events: seq<Event>, d: DeviceId) {
    forall e :: e in events ==> e.Process? && e.d == d
  }

  /** Nothing but this device has changed since. */
  ghost predicate OnlyMoved(t: System, u: System, d: DeviceId) {
    && u.db == t.db && u.channel == t.channel && u.sent == t.sent && u.answers == t.answers
    && HasGroup(t, d) && HasGroup(u, d) && u.devices == t.devices[d := u.devices[d]]
  }

  /** The device has processed the log to its end, and nothing else has changed. */
  ghost predicate CaughtUp(t: System, u: System, d: DeviceId)
    requires Contiguous(t.db)
  {
    OnlyMoved(t, u, d) && GroupOf(u, d).history == History(t)
  }

  /** How many accepted commits a device has still to process. */
  ghost function Missing(t: System, d: DeviceId): (n: nat)
    requires Contiguous(t.db) && HasGroup(t, d)
  {
    if Epoch(GroupOf(t, d)) < |History(t)| then |History(t)| - Epoch(GroupOf(t, d)) else 0
  }

  lemma ProcessMoves(t: System, d: DeviceId, i: nat)
    requires Contiguous(t.db) && EpochsOk(t.db) && HasGroup(t, d) && i < |ChannelLog(t)| && Enabled(t, Process(d, i))
    ensures var u := Next(t, Process(d, i));
            && OnlyMoved(t, u, d) && GroupOf(u, d) == Merged(GroupOf(t, d), ChannelLog(t)[i].wire)
            && Missing(t, d) > 0 && Missing(u, d) == Missing(t, d) - 1
  {
    LogEntry(t, i);
    WithGroupMoves(t, d, Merged(GroupOf(t, d), ChannelLog(t)[i].wire));
  }

  lemma WithGroupMoves(t: System, d: DeviceId, g: Group)
    requires HasGroup(t, d)
    ensures OnlyMoved(t, WithGroup(t, d, g), d) && GroupOf(WithGroup(t, d, g), d) == g
  {}

  /** Merging the next commit neither makes nor removes an obstacle. */
  lemma MergedObstacle(rows: seq<MessageRow>, d: DeviceId, g: Group, wire: Wire)
    requires CommitsLinked(rows) && Epoch(g) < |rows| && rows[Epoch(g)].wire == wire
    requires g.pending == Some(wire) || Processable(g, d, wire)
    ensures Obstructed(rows, d, Merged(g, wire)) <==> Obstructed(rows, d, g)
  {
    var m := Merged(g, wire);
    LinkedIsAccepted(rows, Epoch(g));
    assert !OwnAhead(rows, d, g, Epoch(g));
    forall k: nat ensures OwnAhead(rows, d, m, k) <==> OwnAhead(rows, d, g, k) {}
    if k: nat :| OwnAhead(rows, d, g, k) {
      assert OwnAhead(rows, d, m, k);
    }
  }

  lemma ProcessKeepsBlocked(t: System, d: DeviceId, i: nat)
    requires SysInv(t) && Enabled(t, Process(d, i)) && Contiguous(Next(t, Process(d, i)).db)
    ensures Blocked(Next(t, Process(d, i)), d) <==> Blocked(t, d)
  {
    ProcessMoves(t, d, i);
    LogEntry(t, i);
    LogIsOk(t.db, t.channel);
    LogCommit(ChannelLog(t), i);
    MergedObstacle(Commits(t), d, GroupOf(t, d), ChannelLog(t)[i].wire);
  }

  lemma ProcessNext(t: System, d: DeviceId) returns (i: nat)
    requires SysInv(t) && HasGroup(t, d) && Missing(t, d) > 0 && !Blocked(t, d)
    ensures Enabled(t, Process(d, i))
  {
    assert DeviceOk(Begun(t), History(t), d, t.devices[d]);
    i := NextCommit(t, Epoch(GroupOf(t, d)));
    FetchesExactly(t, d, i);
    TakesNext(Commits(t), d, GroupOf(t, d));
  }

  lemma MissingNothing(t: System, d: DeviceId)
    requires Contiguous(t.db) && DevicesOk(t) && HasGroup(t, d) && Missing(t, d) == 0
    ensures GroupOf(t, d).history == History(t)
  {
    MergedPrefix(t, d);
    assert History(t)[..|History(t)|] == History(t);
  }

  /** Part of the way: so many entries are processed, nothing else has changed and nothing is in the way. */
  ghost predicate OnTheWay(t: System, done: seq<Event>, u: System, d: DeviceId)
    requires Contiguous(t.db) && Contiguous(u.db)
  {
    && Processing(done, d) && OnlyMoved(t, u, d) && |done| + Missing(u, d) == Missing(t, d) && !Blocked(u, d)
  }

  lemma MovedTwice(t: System, u: System, w: System, d: DeviceId)
    requires OnlyMoved(t, u, d) && OnlyMoved(u, w, d)
    ensures OnlyMoved(t, w, d)
  {}

  lemma FurtherOnTheWay(t: System, done: seq<Event>, u: System, e: Event, w: System, d: DeviceId)
    requires Contiguous(t.db) && Contiguous(u.db) && OnTheWay(t, done, u, d)
    requires OnlyMoved(u, w, d) && Missing(w, d) == Missing(u, d) - 1 && !Blocked(w, d) && e.Process? && e.d == d
    ensures OnTheWay(t, done + [e], w, d)
  {
    MovedTwice(t, u, w, d);
  }

  lemma OneFurther(t: System, done: seq<Event>, u: System, d: DeviceId) returns (i: nat)
    requires SysInv(u) && Contiguous(t.db) && OnTheWay(t, done, u, d) && Missing(u, d) > 0
    ensures Enabled(u, Process(d, i)) && Contiguous(Next(u, Process(d, i)).db)
    ensures OnTheWay(t, done + [Process(d, i)], Next(u, Process(d, i)), d)
  {
    i := ProcessNext(u, d);
    var w := Next(u, Process(d, i));
    ProcessMoves(u, d, i);
    ProcessKeepsBlocked(u, d, i);
    FurtherOnTheWay(t, done, u, Process(d, i), w, d);
  }

  lemma {:induction false} TheRest(t: System, done: seq<Event>, d: DeviceId) returns (rest: seq<Event>)
    requires SysInv(t) && OnTheWay(t, done, SystemRun(t, done), d)
    ensures OnTheWay(t, rest, SystemRun(t, rest), d) && Missing(SystemRun(t, rest), d) == 0
    decreases Missing(SystemRun(t, done), d)
  {
    var u := SystemRun(t, done);
    if Missing(u, d) == 0 {
      rest := done;
    } else {
      var i := OneFurther(t, done, u, d);
      RunNext(t, done, Process(d, i));
      rest := TheRest(t, done + [Process(d, i)], d);
    }
  }

  /** Where nothing is in the way, processing one log entry for each missing commit catches up. */
  lemma CatchesUp(t: System, d: DeviceId) returns (rest: seq<Event>)
    requires SysInv(t) && HasGroup(t, d) && !Blocked(t, d)
    ensures Processing(rest, d) && |rest| == Missing(t, d) && CaughtUp(t, SystemRun(t, rest), d)
  {
    assert OnTheWay(t, [], SystemRun(t, []), d);
    rest := TheRest(t, [], d);
    MissingNothing(SystemRun(t, rest), d);
  }

  /** Processing entries of the log does not get past an obstacle. */
  lemma {:induction false} ProcessingKeepsBlocked(t: System, d: DeviceId, events: seq<Event>)
    requires SysInv(t) && Blocked(t, d) && Processing(events, d)
    ensures Blocked(SystemRun(t, events), d)
  {
    if events != [] {
      var before, e := events[..|events| - 1], events[|events| - 1];
      ProcessingKeepsBlocked(t, d, before);
      if Enabled(SystemRun(t, before), e) {
        ProcessKeepsBlocked(SystemRun(t, before), d, e.i);
      }
    }
  }

  lemma BlockedIsBehind(u: System, d: DeviceId)
    requires Contiguous(u.db) && Blocked(u, d)
    ensures GroupOf(u, d).history != History(u)
  {
    var k: nat :| OwnAhead(Commits(u), d, GroupOf(u, d), k);
  }

  /** Some sequence of processed log entries brings the device to the whole accepted history. */
  ghost predicate CanCatchUp(t: System, d: DeviceId)
    requires SysInv(t)
  {
    exists rest :: Processing(rest, d) && CaughtUp(t, SystemRun(t, rest), d)
  }

  /**
   A device can catch up exactly when none of its own commits is ahead of it, the next one being pending aside.
   `Process` stands for processing another device's commit and for merging the own pending one from the log.
   */
  lemma CatchUpExactly(t: System, d: DeviceId)
    requires SysInv(t) && HasGroup(t, d)
    ensures CanCatchUp(t, d) <==> !Blocked(t, d)
  {
    if Blocked(t, d) {
      forall rest | Processing(rest, d) ensures !CaughtUp(t, SystemRun(t, rest), d) {
        ProcessingKeepsBlocked(t, d, rest);
        BlockedIsBehind(SystemRun(t, rest), d);
      }
    } else {
      var rest := CatchesUp(t, d);
    }
  }

  // ---------------------------------------------------------------- devices that keep their state

  /** A commit submission whose device is still waiting for its outcome. */
  predicate Waiting(device: Device, req: Submission) {
    device.group.Some? && device.group.value.pending == Some(req.wire) && device.operation == req.operation
  }

  /** A sent commit is out of the race, or its device is waiting for the answer. */
  ghost predicate Tracked(s: System, req: Submission)
    requires Contiguous(s.db) && req.wire.CommitWire?
  {
    HasGroup(s, req.device) && (Settled(s.db, History(s), req) || Waiting(s.devices[req.device], req))
  }

  /** The answer a device has rejected its pending commit for. */
  predicate Refuses(answer: Answer, d: DeviceId, device: Device) {
    && !answer.accepted && answer.req.messageClass == Commit && answer.req.device == d
    && Waiting(device, answer.req)
  }

  predicate OwnCommit(rows: seq<MessageRow>, d: DeviceId, k: nat) {
    k < |rows| && rows[k].device == d
  }

  /** The next commit is the device's own pending one, submitted under the operation id it remembers. */
  predicate ExpectsNext(rows: seq<MessageRow>, device: Device)
    requires device.group.Some?
  {
    Epoch(device.group.value) < |rows| && device.group.value.pending == Some(rows[Epoch(device.group.value)].wire) ==>
      device.operation == rows[Epoch(device.group.value)].operation
  }

  ghost predicate DeviceLive(rows: seq<MessageRow>, answers: set<Answer>, d: DeviceId, device: Device) {
    match device.group
    case None => forall k: nat :: !OwnCommit(rows, d, k)
    case Some(g) =>
      && !Obstructed(rows, d, g) && ExpectsNext(rows, device)
      && (g.pending.Some? && device.outcome == WasRejected ==>
            exists answer :: answer in answers && Refuses(answer, d, device))
  }

  ghost predicate TrackedCommit(s: System, req: Submission)
    requires Contiguous(s.db)
  {
    req.messageClass == Commit ==> req.wire.CommitWire? && Tracked(s, req)
  }

  ghost predicate SentTracked(s: System, d: DeviceId)
    requires Contiguous(s.db)
  {
    forall req :: req in s.sent && req.device == d ==> TrackedCommit(s, req)
  }

  /** What keeps a device able to go on: it remembers what it has sent, and nothing is in its way. */
  ghost predicate Live(s: System, d: DeviceId)
    requires Contiguous(s.db)
  {
    SentTracked(s, d) && (d in s.devices ==> DeviceLive(Commits(s), s.answers, d, s.devices[d]))
  }

  // ---------------------------------------------------------------- steps of the device

  lemma DeviceChange(s: System, d: DeviceId, device: Device)
    requires Contiguous(s.db) && device.group.Some?
    requires DeviceLive(Commits(s), s.answers, d, device)
    requires forall req :: req in s.sent && req.messageClass == Commit && req.device == d ==>
               req.wire.CommitWire? && (Settled(s.db, History(s), req) || Waiting(device, req))
    ensures Live(WithDevice(s, d, device), d)
  {
    var s' := WithDevice(s, d, device);
    forall req | req in s'.sent && req.device == d ensures TrackedCommit(s', req) {
      assert req.messageClass == Commit ==> Settled(s.db, History(s), req) || Waiting(device, req);
    }
  }

  /** A device whose next epoch is already taken has nothing open. */
  lemma SettledWhenTaken(s: System, d: DeviceId, req: Submission)
    requires Contiguous(s.db) && SentTracked(s, d) && DevicesOk(s) && HasGroup(s, d)
    requires Epoch(GroupOf(s, d)) < |History(s)|
    requires req in s.sent && req.messageClass == Commit && req.device == d
    ensures req.wire.CommitWire? && Settled(s.db, History(s), req)
  {
    assert TrackedCommit(s, req) && DeviceOk(Begun(s), History(s), d, s.devices[d]);
  }

  lemma MergeStep(s: System, d: DeviceId, wire: Wire)
    requires Contiguous(s.db) && ProtocolOk(s) && Live(s, d) && HasGroup(s, d)
    requires Epoch(GroupOf(s, d)) < |Commits(s)| && Commits(s)[Epoch(GroupOf(s, d))].wire == wire
    requires GroupOf(s, d).pending == Some(wire) || Processable(GroupOf(s, d), d, wire)
    ensures Live(WithGroup(s, d, Merged(GroupOf(s, d), wire)), d)
  {
    assert DeviceLive(Commits(s), s.answers, d, s.devices[d]);
    MergedObstacle(Commits(s), d, GroupOf(s, d), wire);
    forall req | req in s.sent && req.messageClass == Commit && req.device == d
      ensures req.wire.CommitWire? && Settled(s.db, History(s), req)
    {
      SettledWhenTaken(s, d, req);
    }
    DeviceChange(s, d, s.devices[d].(group := Some(Merged(GroupOf(s, d), wire))));
  }

  lemma AcceptStep(s: System, d: DeviceId)
    requires Contiguous(s.db) && ProtocolOk(s) && Live(s, d) && Enabled(s, AcceptPending(d))
    requires Contiguous(Next(s, AcceptPending(d)).db)
    ensures Live(Next(s, AcceptPending(d)), d)
  {
    assert DeviceOk(Begun(s), History(s), d, s.devices[d]);
    MergeStep(s, d, GroupOf(s, d).pending.value);
  }

  lemma ProcessStep(s: System, d: DeviceId, i: nat)
    requires Contiguous(s.db) && EpochsOk(s.db) && ProtocolOk(s) && Live(s, d) && Enabled(s, Process(d, i))
    requires Contiguous(Next(s, Process(d, i)).db)
    ensures Live(Next(s, Process(d, i)), d)
  {
    LogEntry(s, i);
    MergeStep(s, d, ChannelLog(s)[i].wire);
  }

  lemma NewGroupStep(s: System, d: DeviceId, g: Group)
    requires Contiguous(s.db) && Live(s, d) && d in s.devices && s.devices[d].group == None && g.pending == None
    ensures Live(WithGroup(s, d, g), d)
  {
    assert DeviceLive(Commits(s), s.answers, d, s.devices[d]);
    forall k: nat ensures !OwnAhead(Commits(s), d, g, k) {
      assert !OwnCommit(Commits(s), d, k);
    }
    forall req | req in s.sent && req.messageClass == Commit ensures req.device != d {
      assert req.device == d ==> TrackedCommit(s, req);
    }
    DeviceChange(s, d, s.devices[d].(group := Some(g)));
  }

  /** Without a pending commit, no own commit is ahead at all. */
  lemma NoneOwn(rows: seq<MessageRow>, d: DeviceId, g: Group, m: Group)
    requires CommitsLinked(rows) && !Obstructed(rows, d, g) && g.pending == None && m.history == g.history
    requires m.pending.Some? ==> m.pending.value.CommitWire? && m.pending.value.author == d
    ensures !Obstructed(rows, d, m)
    ensures Epoch(m) < |rows| ==> m.pending != Some(rows[Epoch(m)].wire)
  {
    forall k: nat ensures !OwnAhead(rows, d, m, k) {
      assert !OwnAhead(rows, d, g, k);
    }
    if Epoch(m) < |rows| {
      LinkedIsAccepted(rows, Epoch(m));
      assert !OwnAhead(rows, d, g, Epoch(m));
    }
  }

  lemma PrepareStep(s: System, d: DeviceId, operation: OperationId, nonce: nat)
    requires Contiguous(s.db) && ProtocolOk(s) && Live(s, d) && Enabled(s, Prepare(d, operation, nonce))
    ensures Live(Next(s, Prepare(d, operation, nonce)), d)
  {
    var g := GroupOf(s, d);
    var m := g.(pending := Some(CommitBy(g, d, nonce)));
    assert DeviceLive(Commits(s), s.answers, d, s.devices[d]);
    NoneOwn(Commits(s), d, g, m);
    forall req | req in s.sent && req.messageClass == Commit && req.device == d
      ensures req.wire.CommitWire? && Settled(s.db, History(s), req)
    {
      assert TrackedCommit(s, req);
    }
    DeviceChange(s, d, Device(Some(m), operation, Unknown));
  }

  lemma LearnStep(s: System, d: DeviceId, answer: Answer)
    requires Contiguous(s.db) && Live(s, d) && Enabled(s, Learn(d, answer))
    ensures Live(Next(s, Learn(d, answer)), d)
  {
    var device := s.devices[d].(outcome := if answer.accepted then WasAccepted else WasRejected);
    assert DeviceLive(Commits(s), s.answers, d, s.devices[d]);
    assert !answer.accepted ==> Refuses(answer, d, device);
    forall req | req in s.sent && req.messageClass == Commit && req.device == d
      ensures req.wire.CommitWire? && (Settled(s.db, History(s), req) || Waiting(device, req))
    {
      assert TrackedCommit(s, req);
    }
    DeviceChange(s, d, device);
  }

  /** A refused pending commit is not the next accepted one. */
  lemma RefusedIsNotNext(s: System, d: DeviceId, answer: Answer)
    requires Contiguous(s.db) && EpochsOk(s.db) && AnswersOk(s) && answer in s.answers
    requires CommitsLinked(Commits(s)) && HasGroup(s, d)
    requires Refuses(answer, d, s.devices[d]) && ExpectsNext(Commits(s), s.devices[d])
    ensures Epoch(GroupOf(s, d)) < |Commits(s)| ==>
              GroupOf(s, d).pending != Some(Commits(s)[Epoch(GroupOf(s, d))].wire)
              || Commits(s)[Epoch(GroupOf(s, d))].device != d
  {
    var e := Epoch(GroupOf(s, d));
    assert AnswerOk(s.db, s.channel, History(s), answer);
    if e < |Commits(s)| && GroupOf(s, d).pending == Some(Commits(s)[e].wire) && Commits(s)[e].device == d {
      var p := AcceptedIsStored(s.db, s.channel, e);
      assert IsStoredAt(s.db, s.channel, p, answer.req);
    }
  }

  lemma ClearedObstacle(rows: seq<MessageRow>, d: DeviceId, g: Group)
    requires !Obstructed(rows, d, g)
    requires Epoch(g) < |rows| ==> g.pending != Some(rows[Epoch(g)].wire) || rows[Epoch(g)].device != d
    ensures !Obstructed(rows, d, g.(pending := None))
  {
    forall k: nat ensures !OwnAhead(rows, d, g.(pending := None), k) {
      assert !OwnAhead(rows, d, g, k);
    }
  }

  lemma RejectStep(s: System, d: DeviceId)
    requires Contiguous(s.db) && EpochsOk(s.db) && ProtocolOk(s) && Live(s, d) && Enabled(s, RejectPending(d))
    ensures Live(Next(s, RejectPending(d)), d)
  {
    var g := GroupOf(s, d);
    assert DeviceLive(Commits(s), s.answers, d, s.devices[d]);
    var answer :| answer in s.answers && Refuses(answer, d, s.devices[d]);
    RefusedIsNotNext(s, d, answer);
    ClearedObstacle(Commits(s), d, g);
    assert AnswerOk(s.db, s.channel, History(s), answer);
    forall req | req in s.sent && req.messageClass == Commit && req.device == d
      ensures req.wire.CommitWire? && Settled(s.db, History(s), req)
    {
      assert TrackedCommit(s, req);
    }
    DeviceChange(s, d, s.devices[d].(group := Some(g.(pending := None))));
  }

  lemma SendStep(s: System, e: Event)
    requires Contiguous(s.db) && ProtocolOk(s) && Enabled(s, e) && (e.SendCommit? || e.SendWelcome?)
    requires Live(s, e.d) && Contiguous(Next(s, e).db)
    ensures Live(Next(s, e), e.d)
  {
    var s' := Next(s, e);
    assert DeviceOk(Begun(s), History(s), e.d, s.devices[e.d]);
    forall req | req in s'.sent && req.device == e.d ensures TrackedCommit(s', req) {
      assert req in s.sent ==> TrackedCommit(s, req);
    }
  }

  lemma OwnSteps(s: System, e: Event)
    requires Contiguous(s.db) && EpochsOk(s.db) && ProtocolOk(s) && Enabled(s, e) && IsDeviceEvent(e)
    requires Live(s, e.d) && Contiguous(Next(s, e).db)
    ensures Live(Next(s, e), e.d)
  {
    match e
    case Create(d) => NewGroupStep(s, d, Group(0, [], None));
    case Prepare(d, operation, nonce) => PrepareStep(s, d, operation, nonce);
    case SendCommit(_, _, _, _) => SendStep(s, e);
    case SendWelcome(_, _, _, _, _, _) => SendStep(s, e);
    case Learn(d, answer) => LearnStep(s, d, answer);
    case AcceptPending(d) => AcceptStep(s, d);
    case RejectPending(d) => RejectStep(s, d);
    case Process(d, i) => ProcessStep(s, d, i);
    case Join(d, i) => NewGroupStep(s, d, Joined(ChannelLog(s)[i].wire));
  }

  // ---------------------------------------------------------------- steps of others

  /** What a device does changes no other device, and sends nothing in its name. */
  lemma OthersMeans(s: System, e: Event, d: DeviceId)
    requires Contiguous(s.db) && Enabled(s, e) && IsDeviceEvent(e) && e.d != d
    ensures d in Next(s, e).devices <==> d in s.devices
    ensures d in s.devices ==> Next(s, e).devices[d] == s.devices[d]
    ensures forall req :: req in Next(s, e).sent && req.device == d ==> req in s.sent
  {}

  lemma OthersSteps(s: System, e: Event, d: DeviceId)
    requires Contiguous(s.db) && Enabled(s, e) && IsDeviceEvent(e) && e.d != d
    requires Live(s, d) && Contiguous(Next(s, e).db)
    ensures Live(Next(s, e), d)
  {
    OthersMeans(s, e, d);
    DeviceEventsKeepDb(s, e);
    var s' := Next(s, e);
    forall req | req in s'.sent && req.device == d ensures TrackedCommit(s', req) {
      assert TrackedCommit(s, req);
    }
  }

  lemma TrackedLater(s: System, db': Db, req: Submission)
    requires Contiguous(s.db) && Contiguous(db') && Later(s.db, db', s.channel) && TrackedCommit(s, req)
    ensures TrackedCommit(s.(db := db'), req)
  {
    if req.messageClass == Commit && Settled(s.db, History(s), req) {
      SettledLater(s.db, db', s.channel, req);
    }
  }

  /** The server has moved on, and the device is not worse off. */
  lemma LiveLater(s: System, db': Db, d: DeviceId)
    requires Contiguous(s.db) && Contiguous(db') && Live(s, d) && Later(s.db, db', s.channel)
    requires d in s.devices ==> DeviceLive(CommitRows(db', s.channel), s.answers, d, s.devices[d])
    ensures Live(s.(db := db'), d)
  {
    forall req | req in s.sent && req.device == d ensures TrackedCommit(s.(db := db'), req) {
      TrackedLater(s, db', req);
    }
  }

  lemma ServeStep(s: System, op: Op, d: DeviceId)
    requires Contiguous(s.db) && Contiguous(Step(s.db, op)) && Live(s, d) && !Reserved(s, op)
    ensures Live(s.(db := Step(s.db, op)), d)
  {
    ServedRows(s, op);
    ServedLater(s, op);
    LiveLater(s, Step(s.db, op), d);
  }

  /** A commit stored afresh is the pending one of its device, and comes next for it. */
  lemma FreshIsPending(s: System, req: Submission)
    requires Contiguous(s.db) && EpochsOk(s.db) && ProtocolOk(s) && Live(s, req.device)
    requires req in s.sent && req.messageClass == Commit && Storable(s.db, req)
    ensures HasGroup(s, req.device) && Waiting(s.devices[req.device], req)
    ensures Epoch(GroupOf(s, req.device)) == |Commits(s)|
  {
    FreshCommit(s, req);
    assert TrackedCommit(s, req);
    assert DeviceOk(Begun(s), History(s), req.device, s.devices[req.device]);
  }

  /** A new commit is in the way of no device that waits for it, or did not make it. */
  lemma NewRowLive(rows: seq<MessageRow>, answers: set<Answer>, d: DeviceId, device: Device, row: MessageRow, more: seq<MessageRow>)
    requires DeviceLive(rows, answers, d, device) && more == rows + [row]
    requires device.group.Some? ==> Epoch(device.group.value) <= |rows|
    requires row.device == d ==>
               device.group.Some? && Epoch(device.group.value) == |rows|
               && device.group.value.pending == Some(row.wire) && device.operation == row.operation
    requires device.group.Some? && device.group.value.pending == Some(row.wire) ==> row.device == d
    ensures DeviceLive(more, answers, d, device)
  {
    match device.group
    case None =>
      forall k: nat ensures !OwnCommit(more, d, k) {
        assert !OwnCommit(rows, d, k);
      }
    case Some(g) =>
      forall k: nat ensures !OwnAhead(more, d, g, k) {
        assert !OwnAhead(rows, d, g, k);
      }
  }

  lemma FreshDeviceLive(s: System, req: Submission, d: DeviceId)
    requires Contiguous(s.db) && EpochsOk(s.db) && ProtocolOk(s) && Live(s, d)
    requires req in s.sent && req.messageClass == Commit && Storable(s.db, req) && d in s.devices
    ensures DeviceLive(Commits(s) + [NewRow(req)], s.answers, d, s.devices[d])
  {
    FreshCommit(s, req);
    if req.device == d {
      FreshIsPending(s, req);
    }
    assert DeviceOk(Begun(s), History(s), d, s.devices[d]) && DeviceLive(Commits(s), s.answers, d, s.devices[d]);
    NewRowLive(Commits(s), s.answers, d, s.devices[d], NewRow(req), Commits(s) + [NewRow(req)]);
  }

  lemma FreshCommitStep(s: System, req: Submission, d: DeviceId)
    requires Contiguous(s.db) && EpochsOk(s.db) && ProtocolOk(s) && Live(s, d)
    requires req in s.sent && req.messageClass == Commit && Storable(s.db, req) && Contiguous(Stored(s.db, req))
    ensures Live(s.(db := Stored(s.db, req)), d)
  {
    FreshCommit(s, req);
    FreshCommitLog(s, req);
    NewMessages(s.db, req);
    if d in s.devices {
      FreshDeviceLive(s, req, d);
    }
    LiveLater(s, Stored(s.db, req), d);
  }

  lemma FreshWelcomeStep(s: System, req: Submission, d: DeviceId)
    requires Contiguous(s.db) && ProtocolOk(s) && Live(s, d)
    requires req in s.sent && req.messageClass != Commit && Storable(s.db, req) && Contiguous(Stored(s.db, req))
    ensures Live(s.(db := Stored(s.db, req)), d)
  {
    assert SubmissionOk(s.channel, Begun(s), History(s), req);
    FreshWelcomeLog(s, req);
    NewMessages(s.db, req);
    LiveLater(s, Stored(s.db, req), d);
  }

  lemma HandledLive(s: System, req: Submission, d: DeviceId)
    requires Contiguous(s.db) && EpochsOk(s.db) && ProtocolOk(s) && Live(s, d) && req in s.sent
    requires Contiguous(Submitted(s.db, req))
    ensures Live(s.(db := Submitted(s.db, req)), d)
  {
    AcceptedMeans(s.db, req);
    if !FreshlyAccepted(s.db, req) {
      assert s.(db := Submitted(s.db, req)) == s;
    } else if req.messageClass == Commit {
      FreshCommitStep(s, req, d);
    } else {
      FreshWelcomeStep(s, req, d);
    }
  }

  lemma MoreAnswers(s: System, answers: set<Answer>, d: DeviceId)
    requires Contiguous(s.db) && Live(s, d) && s.answers <= answers
    ensures Live(s.(answers := answers), d)
  {
    forall req | req in s.sent && req.device == d ensures TrackedCommit(s.(answers := answers), req) {
      assert TrackedCommit(s, req);
    }
  }

  lemma HandleStep(s: System, req: Submission, db': Db, answers: set<Answer>, d: DeviceId)
    requires Contiguous(s.db) && EpochsOk(s.db) && ProtocolOk(s) && Live(s, d) && req in s.sent
    requires db' == Submitted(s.db, req) && Contiguous(db') && s.answers <= answers
    ensures Live(s.(db := db', answers := answers), d)
  {
    HandledLive(s, req, d);
    MoreAnswers(s.(db := db'), answers, d);
  }

  // ---------------------------------------------------------------- runs

  /** Every step of anybody keeps a device able to go on. */
  lemma LiveStep(s: System, e: Event, d: DeviceId)
    requires SysInv(s) && Live(s, d) && Enabled(s, e)
    ensures SysInv(Next(s, e)) && Live(Next(s, e), d)
  {
    SystemStep(s, e);
    if e.Serve? {
      ServeStep(s, e.op, d);
    } else if e.Handle? {
      HandleStep(s, e.req, Submitted(s.db, e.req), s.answers + {Answer(e.req, Decide(s.db, e.req).Accepted?)}, d);
    } else if e.d == d {
      OwnSteps(s, e);
    } else {
      OthersSteps(s, e, d);
    }
  }

  lemma {:induction false} RunKeepsLive(s: System, events: seq<Event>, d: DeviceId)
    requires SysInv(s) && Live(s, d)
    ensures Live(SystemRun(s, events), d)
  {
    if events != [] {
      var before, e := events[..|events| - 1], events[|events| - 1];
      RunKeepsLive(s, before, d);
      if Enabled(SystemRun(s, before), e) {
        LiveStep(SystemRun(s, before), e, d);
      }
    }
  }

  lemma StartLive(channel: ChannelId, encrypted: set<ChannelId>, devices: set<DeviceId>, d: DeviceId)
    ensures SysInv(Start(channel, encrypted, devices)) && Live(Start(channel, encrypted, devices), d)
  {
    StartInv(channel, encrypted, devices);
  }

  lemma LiveIsUnblocked(t: System, d: DeviceId)
    requires Contiguous(t.db) && Live(t, d) && HasGroup(t, d)
    ensures !Blocked(t, d)
  {
    assert DeviceLive(Commits(t), t.answers, d, t.devices[d]);
  }

  /**
   No device that keeps its state is ever stuck behind the server: from any state of any run it reaches the whole
   accepted history by processing one log entry for each commit it misses, whether a pending commit of its own is
   in the way or not.
   */
  lemma CatchUp(s: System, events: seq<Event>, d: DeviceId) returns (rest: seq<Event>)
    requires SysInv(s) && Live(s, d) && HasGroup(SystemRun(s, events), d)
    ensures Processing(rest, d) && |rest| == Missing(SystemRun(s, events), d)
    ensures CaughtUp(SystemRun(s, events), SystemRun(SystemRun(s, events), rest), d)
  {
    RunKeepsLive(s, events, d);
    LiveIsUnblocked(SystemRun(s, events), d);
    rest := CatchesUp(SystemRun(s, events), d);
  }
}
