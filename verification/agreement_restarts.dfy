/**
 The system of Agreement with devices that may go back: any device may save its state at any time and
 be replaced later by any state it has saved, together with what its caller remembered of its open
 request, while requests and answers are in flight. The accepted history never forks; a device that
 went back behind a commit of its own cannot follow it any more, and nobody else is affected.
 */
module AgreementRestarts {
  import opened Common
  import opened Delivery
  import opened DeliveryInvariant
  import opened DeliveryTheorems
  import opened MlsGroup
  import opened Agreement
  import opened Progress

  datatype Cluster = Cluster(system: System, files: map<DeviceId, seq<Device>>)

  datatype Act =
    | Plain(event: Event)
    | Save(d: DeviceId)
    | Restore(d: DeviceId, i: nat)

  function FilesOf(c: Cluster, d: DeviceId): seq<Device> {
    if d in c.files then c.files[d] else []
  }

  ghost predicate Possible(c: Cluster, act: Act)
    requires Contiguous(c.system.db)
  {
    match act
    case Plain(e) => Enabled(c.system, e)
    case Save(d) => d in c.system.devices
    case Restore(d, i) => d in c.system.devices && i < |FilesOf(c, d)|
  }

  ghost function Done(c: Cluster, act: Act): Cluster
    requires Contiguous(c.system.db) && Possible(c, act)
  {
    match act
    case Plain(e) => c.(system := Next(c.system, e))
    case Save(d) => c.(files := c.files[d := FilesOf(c, d) + [c.system.devices[d]]])
    case Restore(d, i) => c.(system := WithDevice(c.system, d, FilesOf(c, d)[i]))
  }

  // ---------------------------------------------------------------- the invariant

  predicate FileOk(begun: bool, h: seq<Wire>, d: DeviceId, files: seq<Device>) {
    forall i :: 0 <= i < |files| ==> DeviceOk(begun, h, d, files[i])
  }

  ghost predicate FilesOk(c: Cluster)
    requires Contiguous(c.system.db)
  {
    forall d :: d in c.files ==> FileOk(Begun(c.system), History(c.system), d, c.files[d])
  }

  ghost predicate ClusterInv(c: Cluster) {
    SysInv(c.system) && FilesOk(c)
  }

  lemma WiresStay(rows: seq<MessageRow>, more: seq<MessageRow>)
    requires rows <= more
    ensures Wires(rows) <= Wires(more)
  {}

  lemma FileLater(begun: bool, begun': bool, h: seq<Wire>, h': seq<Wire>, d: DeviceId, files: seq<Device>)
    requires FileOk(begun, h, d, files) && (begun ==> begun') && h <= h'
    ensures FileOk(begun', h', d, files)
  {
    forall i | 0 <= i < |files| ensures DeviceOk(begun', h', d, files[i]) {
      DeviceLater(begun, begun', h, h', d, files[i]);
    }
  }

  lemma PlainStep(c: Cluster, e: Event)
    requires ClusterInv(c) && Enabled(c.system, e)
    ensures ClusterInv(c.(system := Next(c.system, e))) && Next(c.system, e).channel == c.system.channel
  {
    var t := Next(c.system, e);
    SystemStep(c.system, e);
    RowsStay(c.system, e);
    WiresStay(Commits(c.system), Commits(t));
    forall d | d in c.files ensures FileOk(Begun(t), History(t), d, c.files[d]) {
      FileLater(Begun(c.system), Begun(t), History(c.system), History(t), d, c.files[d]);
    }
  }

  lemma SaveStep(c: Cluster, d: DeviceId)
    requires ClusterInv(c) && d in c.system.devices
    ensures ClusterInv(c.(files := c.files[d := FilesOf(c, d) + [c.system.devices[d]]]))
  {
    FileMore(Begun(c.system), History(c.system), d, FilesOf(c, d), c.system.devices[d]);
  }

  lemma FileMore(begun: bool, h: seq<Wire>, d: DeviceId, files: seq<Device>, device: Device)
    requires FileOk(begun, h, d, files) && DeviceOk(begun, h, d, device)
    ensures FileOk(begun, h, d, files + [device])
  {}

  lemma RestoreStep(c: Cluster, d: DeviceId, i: nat)
    requires ClusterInv(c) && d in c.system.devices && i < |FilesOf(c, d)|
    ensures ClusterInv(c.(system := WithDevice(c.system, d, FilesOf(c, d)[i])))
  {
    assert FileOk(Begun(c.system), History(c.system), d, c.files[d]);
    WithGroupOk(c.system, d, FilesOf(c, d)[i]);
    var t := WithDevice(c.system, d, FilesOf(c, d)[i]);
    assert History(t) == History(c.system);
  }

  /** Every step, restarts included, keeps the invariant of the system and of every saved state. */
  lemma ClusterStep(c: Cluster, act: Act)
    requires ClusterInv(c) && Possible(c, act)
    ensures ClusterInv(Done(c, act)) && Done(c, act).system.channel == c.system.channel
  {
    match act
    case Plain(e) => PlainStep(c, e);
    case Save(d) => SaveStep(c, d);
    case Restore(d, i) => RestoreStep(c, d, i);
  }

  /** An act that is not possible in its state does not happen. */
  ghost function AfterAct(c: Cluster, act: Act): (t: Cluster)
    requires ClusterInv(c)
    ensures ClusterInv(t) && t.system.channel == c.system.channel
  {
    if Possible(c, act) then
      ClusterStep(c, act);
      Done(c, act)
    else c
  }

  /** Any interleaving of events, savings and restarts. */
  ghost function ClusterRun(c: Cluster, acts: seq<Act>): (t: Cluster)
    requires ClusterInv(c)
    ensures ClusterInv(t) && t.system.channel == c.system.channel
  {
    if acts == [] then c else AfterAct(ClusterRun(c, acts[..|acts| - 1]), acts[|acts| - 1])
  }

  lemma ClusterSnoc(c: Cluster, acts: seq<Act>, act: Act, longer: seq<Act>)
    requires ClusterInv(c) && longer == acts + [act]
    ensures ClusterRun(c, longer) == AfterAct(ClusterRun(c, acts), act)
  {
    assert longer[..|longer| - 1] == acts;
  }

  lemma ActNext(c: Cluster, acts: seq<Act>, act: Act)
    requires ClusterInv(c) && Possible(ClusterRun(c, acts), act)
    ensures ClusterRun(c, acts + [act]) == Done(ClusterRun(c, acts), act)
  {
    ClusterSnoc(c, acts, act, acts + [act]);
  }

  function Plains(events: seq<Event>): seq<Act> {
    seq(|events|, i requires 0 <= i < |events| => Plain(events[i]))
  }

  lemma PlainAfter(c: Cluster, e: Event)
    requires ClusterInv(c)
    ensures AfterAct(c, Plain(e)) == c.(system := After(c.system, e))
  {}

  lemma PlainsSnoc(events: seq<Event>)
    requires events != []
    ensures Plains(events) == Plains(events[..|events| - 1]) + [Plain(events[|events| - 1])]
  {}

  /** Without savings and restarts these are the runs of the system. */
  lemma {:induction false} PlainRun(c: Cluster, events: seq<Event>)
    requires ClusterInv(c)
    ensures ClusterRun(c, Plains(events)) == c.(system := SystemRun(c.system, events))
  {
    if events == [] {
      assert Plains(events) == [];
    } else {
      var before, e := events[..|events| - 1], events[|events| - 1];
      PlainRun(c, before);
      PlainsSnoc(events);
      ClusterSnoc(c, Plains(before), Plain(e), Plains(events));
      PlainAfter(ClusterRun(c, Plains(before)), e);
    }
  }

  function NewCluster(channel: ChannelId, encrypted: set<ChannelId>, devices: set<DeviceId>): Cluster {
    Cluster(Start(channel, encrypted, devices), map[])
  }

  lemma NewClusterInv(channel: ChannelId, encrypted: set<ChannelId>, devices: set<DeviceId>)
    ensures ClusterInv(NewCluster(channel, encrypted, devices))
  {
    StartInv(channel, encrypted, devices);
  }

  // ---------------------------------------------------------------- agreement

  /**
   Agreement without forks survives restarts: after any interleaving of events, savings and restarts from any
   saved state, two devices hold one history as far as the shorter one goes, and it is the server's.
   */
  lemma AgreementAcrossRestarts(c: Cluster, acts: seq<Act>, a: DeviceId, b: DeviceId)
    requires ClusterInv(c)
    requires HasGroup(ClusterRun(c, acts).system, a) && HasGroup(ClusterRun(c, acts).system, b)
    ensures Agree(ClusterRun(c, acts).system, a, b)
  {
    DevicesAgree(ClusterRun(c, acts).system, a, b);
  }

  // ---------------------------------------------------------------- who can go on

  /** Whatever happens to others, a device that is not restored itself stays able to go on. */
  lemma LiveAct(c: Cluster, act: Act, d: DeviceId)
    requires ClusterInv(c) && Possible(c, act) && Live(c.system, d) && !(act.Restore? && act.d == d)
    ensures Contiguous(Done(c, act).system.db) && Live(Done(c, act).system, d)
  {
    match act
    case Plain(e) => LiveStep(c.system, e, d);
    case Save(_) =>
    case Restore(other, i) => OtherRestored(c.system, other, FilesOf(c, other)[i], d);
  }

  lemma OtherRestored(s: System, other: DeviceId, device: Device, d: DeviceId)
    requires Contiguous(s.db) && Live(s, d) && other != d
    ensures Live(WithDevice(s, other, device), d)
  {
    var s' := WithDevice(s, other, device);
    forall req | req in s'.sent && req.device == d ensures TrackedCommit(s', req) {
      assert TrackedCommit(s, req);
    }
  }

  predicate NeverRestored(acts: seq<Act>, d: DeviceId) {
    forall act :: act in acts ==> !(act.Restore? && act.d == d)
  }

  lemma {:induction false} RunStaysLive(c: Cluster, acts: seq<Act>, d: DeviceId)
    requires ClusterInv(c) && Live(c.system, d) && NeverRestored(acts, d)
    ensures Live(ClusterRun(c, acts).system, d)
  {
    if acts != [] {
      var before, act := acts[..|acts| - 1], acts[|acts| - 1];
      RunStaysLive(c, before, d);
      if Possible(ClusterRun(c, before), act) {
        LiveAct(ClusterRun(c, before), act, d);
      }
    }
  }

  /** A device that never goes back can always catch up, whatever states the others go back to. */
  lemma OthersRestartsDoNoHarm(c: Cluster, acts: seq<Act>, d: DeviceId)
    requires ClusterInv(c) && Live(c.system, d) && NeverRestored(acts, d)
    requires HasGroup(ClusterRun(c, acts).system, d)
    ensures CanCatchUp(ClusterRun(c, acts).system, d)
  {
    RunStaysLive(c, acts, d);
    LiveIsUnblocked(ClusterRun(c, acts).system, d);
    CatchUpExactly(ClusterRun(c, acts).system, d);
  }

  // ---------------------------------------------------------------- who is left behind

  /** A newly prepared commit is a new one: its randomness is not that of an accepted commit. */
  ghost predicate IsFresh(s: System, e: Event)
    requires Contiguous(s.db) && Enabled(s, e)
  {
    e.Prepare? ==> CommitBy(GroupOf(s, e.d), e.d, e.nonce) !in History(s)
  }

  lemma StaysAhead(rows: seq<MessageRow>, more: seq<MessageRow>, d: DeviceId, g: Group)
    requires rows <= more && Obstructed(rows, d, g)
    ensures Obstructed(more, d, g)
  {
    var k: nat :| OwnAhead(rows, d, g, k);
    assert OwnAhead(more, d, g, k);
  }

  /** An obstacle is not removed by replacing the pending commit with none, or with a new one. */
  lemma StillObstructed(rows: seq<MessageRow>, d: DeviceId, g: Group, m: Group)
    requires Obstructed(rows, d, g) && m.history == g.history
    requires m.pending.Some? ==> m.pending.value !in Wires(rows)
    ensures Obstructed(rows, d, m)
  {
    var k: nat :| OwnAhead(rows, d, g, k);
    assert rows[k].wire == Wires(rows)[k];
    assert OwnAhead(rows, d, m, k);
  }

  lemma AcceptedObstacle(s: System, d: DeviceId)
    requires Contiguous(s.db) && ProtocolOk(s) && Enabled(s, AcceptPending(d)) && Blocked(s, d)
    requires Contiguous(Next(s, AcceptPending(d)).db)
    ensures Blocked(Next(s, AcceptPending(d)), d)
  {
    assert DeviceOk(Begun(s), History(s), d, s.devices[d]);
    MergedObstacle(Commits(s), d, GroupOf(s, d), GroupOf(s, d).pending.value);
  }

  lemma PreparedObstacle(s: System, d: DeviceId, operation: OperationId, nonce: nat)
    requires Contiguous(s.db) && Enabled(s, Prepare(d, operation, nonce)) && Blocked(s, d)
    requires IsFresh(s, Prepare(d, operation, nonce)) && Contiguous(Next(s, Prepare(d, operation, nonce)).db)
    ensures Blocked(Next(s, Prepare(d, operation, nonce)), d)
  {
    var g := GroupOf(s, d);
    StillObstructed(Commits(s), d, g, g.(pending := Some(CommitBy(g, d, nonce))));
  }

  lemma RejectedObstacle(s: System, d: DeviceId)
    requires Contiguous(s.db) && Enabled(s, RejectPending(d)) && Blocked(s, d)
    requires Contiguous(Next(s, RejectPending(d)).db)
    ensures Blocked(Next(s, RejectPending(d)), d)
  {
    StillObstructed(Commits(s), d, GroupOf(s, d), GroupOf(s, d).(pending := None));
  }

  /** Sending and learning do not touch the group. */
  lemma SameGroup(s: System, e: Event)
    requires Contiguous(s.db) && Enabled(s, e) && (e.SendCommit? || e.SendWelcome? || e.Learn?)
    ensures Next(s, e).db == s.db && Next(s, e).channel == s.channel
    ensures HasGroup(Next(s, e), e.d) && GroupOf(Next(s, e), e.d) == GroupOf(s, e.d)
  {}

  lemma BlockedOwnStep(s: System, e: Event)
    requires SysInv(s) && Enabled(s, e) && IsDeviceEvent(e) && Blocked(s, e.d) && IsFresh(s, e)
    requires Contiguous(Next(s, e).db)
    ensures Blocked(Next(s, e), e.d)
  {
    match e
    case Create(_) =>
    case Join(_, _) =>
    case Prepare(d, operation, nonce) => PreparedObstacle(s, d, operation, nonce);
    case RejectPending(d) => RejectedObstacle(s, d);
    case AcceptPending(d) => AcceptedObstacle(s, d);
    case Process(d, i) => ProcessKeepsBlocked(s, d, i);
    case Learn(_, _) => SameGroup(s, e);
    case SendCommit(_, _, _, _) => SameGroup(s, e);
    case SendWelcome(_, _, _, _, _, _) => SameGroup(s, e);
  }

  lemma BlockedStep(s: System, e: Event, d: DeviceId)
    requires SysInv(s) && Enabled(s, e) && Blocked(s, d) && (IsDeviceEvent(e) && e.d == d ==> IsFresh(s, e))
    requires Contiguous(Next(s, e).db)
    ensures Blocked(Next(s, e), d)
  {
    if !IsDeviceEvent(e) {
      SystemStep(s, e);
      RowsStay(s, e);
      StaysAhead(Commits(s), Commits(Next(s, e)), d, GroupOf(s, d));
    } else if e.d == d {
      BlockedOwnStep(s, e);
    } else {
      OthersMeans(s, e, d);
      DeviceEventsKeepDb(s, e);
    }
  }

  /** The device is not restored, and makes no commit twice. */
  ghost predicate Forward(c: Cluster, act: Act, d: DeviceId)
    requires Contiguous(c.system.db) && Possible(c, act)
  {
    && !(act.Restore? && act.d == d)
    && (act.Plain? && IsDeviceEvent(act.event) && act.event.d == d ==> IsFresh(c.system, act.event))
  }

  lemma OtherRestoredBlocked(s: System, other: DeviceId, device: Device, d: DeviceId)
    requires Contiguous(s.db) && Blocked(s, d) && other != d
    ensures Blocked(WithDevice(s, other, device), d)
  {}

  lemma BlockedAct(c: Cluster, act: Act, d: DeviceId)
    requires ClusterInv(c) && Possible(c, act) && Blocked(c.system, d) && Forward(c, act, d)
    ensures Contiguous(Done(c, act).system.db) && Blocked(Done(c, act).system, d)
  {
    ClusterStep(c, act);
    match act
    case Plain(e) => BlockedStep(c.system, e, d);
    case Save(_) =>
    case Restore(other, i) => OtherRestoredBlocked(c.system, other, FilesOf(c, other)[i], d);
  }

  ghost predicate ForwardIfPossible(c: Cluster, act: Act, d: DeviceId)
    requires Contiguous(c.system.db)
  {
    Possible(c, act) ==> Forward(c, act, d)
  }

  lemma BlockedAfter(c: Cluster, act: Act, d: DeviceId)
    requires ClusterInv(c) && Blocked(c.system, d) && ForwardIfPossible(c, act, d)
    ensures Blocked(AfterAct(c, act).system, d)
  {
    if Possible(c, act) {
      BlockedAct(c, act, d);
    }
  }

  lemma RunAt(c: Cluster, acts: seq<Act>, n: nat)
    requires ClusterInv(c) && n < |acts|
    ensures ClusterRun(c, acts[..n + 1]) == AfterAct(ClusterRun(c, acts[..n]), acts[n])
  {
    assert acts[..n + 1][..n] == acts[..n];
  }

  ghost predicate ForwardAt(c: Cluster, acts: seq<Act>, n: nat, d: DeviceId)
    requires ClusterInv(c)
  {
    n < |acts| && ForwardIfPossible(ClusterRun(c, acts[..n]), acts[n], d)
  }

  /** In the whole run the device is not restored, and makes no commit twice. */
  ghost predicate StaysForward(c: Cluster, acts: seq<Act>, d: DeviceId)
    requires ClusterInv(c)
  {
    forall n: nat :: n < |acts| ==> ForwardAt(c, acts, n, d)
  }

  lemma BlockedNext(c: Cluster, acts: seq<Act>, d: DeviceId, n: nat)
    requires ClusterInv(c) && n < |acts| && Blocked(ClusterRun(c, acts[..n]).system, d) && ForwardAt(c, acts, n, d)
    ensures Blocked(ClusterRun(c, acts[..n + 1]).system, d)
  {
    RunAt(c, acts, n);
    BlockedAfter(ClusterRun(c, acts[..n]), acts[n], d);
  }

  /** After how many acts the device is not blocked. */
  ghost function FreeTimes(c: Cluster, acts: seq<Act>, d: DeviceId): (free: seq<bool>)
    requires ClusterInv(c)
    ensures |free| == |acts| + 1
    ensures forall n :: 0 <= n < |free| ==> free[n] == !Blocked(ClusterRun(c, acts[..n]).system, d)
  {
    seq(|acts| + 1, n requires 0 <= n < |acts| + 1 => !Blocked(ClusterRun(c, acts[..n]).system, d))
  }

  lemma NeverFreed(c: Cluster, acts: seq<Act>, d: DeviceId, free: seq<bool>)
    requires ClusterInv(c) && StaysForward(c, acts, d) && free == FreeTimes(c, acts, d)
    ensures forall n :: 0 <= n < |acts| && !free[n] ==> !free[n + 1]
  {
    forall n | 0 <= n < |acts| && !free[n] ensures !free[n + 1] {
      BlockedNext(c, acts, d, n);
    }
  }

  lemma FreeEnds(c: Cluster, acts: seq<Act>, d: DeviceId, free: seq<bool>)
    requires ClusterInv(c) && free == FreeTimes(c, acts, d)
    ensures free[0] == !Blocked(c.system, d) && free[|acts|] == !Blocked(ClusterRun(c, acts).system, d)
  {
    assert acts[..0] == [] && acts[..|acts|] == acts;
  }

  lemma StaysBlocked(c: Cluster, acts: seq<Act>, d: DeviceId)
    requires ClusterInv(c) && Blocked(c.system, d) && StaysForward(c, acts, d)
    ensures Blocked(ClusterRun(c, acts).system, d)
  {
    var free := FreeTimes(c, acts, d);
    FreeEnds(c, acts, d, free);
    NeverFreed(c, acts, d, free);
    StaysFalse(free, 0, |acts|);
  }

  /**
   A device that has gone back behind a commit of its own is left behind for good, whatever it and everybody else
   does, until it is restored again: it never holds the whole accepted history, and cannot reach it.
   */
  lemma BlockedForGood(c: Cluster, acts: seq<Act>, d: DeviceId)
    requires ClusterInv(c) && Blocked(c.system, d) && StaysForward(c, acts, d)
    ensures HasGroup(ClusterRun(c, acts).system, d) && !CanCatchUp(ClusterRun(c, acts).system, d)
    ensures GroupOf(ClusterRun(c, acts).system, d).history != History(ClusterRun(c, acts).system)
  {
    StaysBlocked(c, acts, d);
    BlockedIsBehind(ClusterRun(c, acts).system, d);
    CatchUpExactly(ClusterRun(c, acts).system, d);
  }
}
