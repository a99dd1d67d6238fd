/**
 A run in which a device is left behind: it saves its state, commits an add that the server accepts, and is
 then restored from the file it had saved before the commit.
 */
module RollbackExample {
  import opened Common
  import opened Delivery
  import opened DeliveryInvariant
  import opened MlsGroup
  import opened Agreement
  import opened Progress
  import opened AgreementRestarts
  import opened JoinExample

  function TheFirst(): Cluster {
    NewCluster(CHANNEL, {CHANNEL}, {FIRST, SECOND})
  }

  ghost predicate Arrives(acts: seq<Act>, c: Cluster) {
    ClusterInv(TheFirst()) && ClusterRun(TheFirst(), acts) == c
  }

  /** The state can be reached from the start. */
  ghost predicate IsReached(c: Cluster) {
    exists acts :: Arrives(acts, c)
  }

  lemma FirstOk()
    ensures ClusterInv(TheFirst())
  {
    NewClusterInv(CHANNEL, {CHANNEL}, {FIRST, SECOND});
  }

  /** A state reached without restarts. */
  lemma PlainIsReached(t: System)
    requires Reached(t)
    ensures IsReached(Cluster(t, map[]))
  {
    FirstOk();
    var events :| Leaves(events, t);
    PlainRun(TheFirst(), events);
    assert Arrives(Plains(events), Cluster(t, map[]));
  }

  lemma ActReached(c: Cluster, act: Act, t: Cluster)
    requires IsReached(c) && Contiguous(c.system.db) && Possible(c, act) && Done(c, act) == t
    ensures IsReached(t)
  {
    var acts :| Arrives(acts, c);
    ActNext(TheFirst(), acts, act);
    assert Arrives(acts + [act], t);
  }

  lemma EventReached(s: System, e: Event, t: System, files: map<DeviceId, seq<Device>>)
    requires IsReached(Cluster(s, files)) && Leads(s, e, t)
    ensures IsReached(Cluster(t, files))
  {
    ActReached(Cluster(s, files), Plain(e), Cluster(t, files));
  }

  /** The file holds the group as it was before the commit. */
  function TheFile(): map<DeviceId, seq<Device>> {
    map[FIRST := [Alone(None)]]
  }

  lemma Saves()
    ensures Contiguous(Founded().db) && Possible(Cluster(Founded(), map[]), Save(FIRST))
    ensures Done(Cluster(Founded(), map[]), Save(FIRST)) == Cluster(Founded(), TheFile())
  {
    assert [] + [Alone(None)] == [Alone(None)];
  }

  lemma SavedBefore()
    ensures IsReached(Cluster(Founded(), TheFile()))
  {
    FoundedIsReached();
    PlainIsReached(Founded());
    Saves();
    ActReached(Cluster(Founded(), map[]), Save(FIRST), Cluster(Founded(), TheFile()));
  }

  lemma PreparedAfter()
    ensures IsReached(Cluster(State(FreshGroup(), Alone(Some(TheCommit())), NoGroup(), {}, {}), TheFile()))
  {
    SavedBefore();
    CreateAndPrepare();
    EventReached(Founded(), Prepare(FIRST, 5, 7), State(FreshGroup(), Alone(Some(TheCommit())), NoGroup(), {}, {}), TheFile());
  }

  lemma SentAfter()
    ensures IsReached(Cluster(Pending(), TheFile()))
  {
    PreparedAfter();
    CreateAndPrepare();
    EventReached(State(FreshGroup(), Alone(Some(TheCommit())), NoGroup(), {}, {}), SendCommit(FIRST, 9, true, 0),
                 Pending(), TheFile());
  }

  lemma AcceptedAfter()
    ensures IsReached(Cluster(CommitStored(), TheFile()))
  {
    SentAfter();
    HandleCommit();
    EventReached(Pending(), Handle(CommitRequest()), CommitStored(), TheFile());
  }

  function RolledBack(): System {
    State(Committed(), Alone(None), NoGroup(), {CommitRequest()}, {Answer(CommitRequest(), true)})
  }

  lemma Restored()
    ensures Contiguous(CommitStored().db) && Possible(Cluster(CommitStored(), TheFile()), Restore(FIRST, 0))
    ensures Done(Cluster(CommitStored(), TheFile()), Restore(FIRST, 0)) == Cluster(RolledBack(), TheFile())
  {
    assert map[FIRST := Alone(Some(TheCommit())), SECOND := NoGroup()][FIRST := Alone(None)]
        == map[FIRST := Alone(None), SECOND := NoGroup()];
  }

  lemma RolledBackIsReached()
    ensures IsReached(Cluster(RolledBack(), TheFile()))
  {
    AcceptedAfter();
    Restored();
    ActReached(Cluster(CommitStored(), TheFile()), Restore(FIRST, 0), Cluster(RolledBack(), TheFile()));
  }

  lemma ReachedIsOk(c: Cluster)
    requires IsReached(c)
    ensures ClusterInv(c)
  {
    var acts :| Arrives(acts, c);
  }

  lemma ItsCommits()
    ensures Contiguous(Committed()) && CommitRows(Committed(), CHANNEL) == [NewRow(CommitRequest())]
  {
    assert LogOf(Committed(), CHANNEL) == [] + [NewRow(CommitRequest())];
    CommitsOfAppend([], NewRow(CommitRequest()));
  }

  lemma ItsCommitIsAhead()
    ensures Contiguous(RolledBack().db) && Blocked(RolledBack(), FIRST) && History(RolledBack()) == [TheCommit()]
  {
    ItsCommits();
    assert OwnAhead([NewRow(CommitRequest())], FIRST, Group(0, [], None), 0);
  }

  /** From the empty server a state is reached in which the first device cannot catch up with its own commit. */
  lemma FirstIsLeftBehind()
    ensures IsReached(Cluster(RolledBack(), TheFile())) && SysInv(RolledBack())
    ensures HasGroup(RolledBack(), FIRST) && GroupOf(RolledBack(), FIRST).history == []
    ensures History(RolledBack()) == [TheCommit()] && !CanCatchUp(RolledBack(), FIRST)
  {
    RolledBackIsReached();
    ReachedIsOk(Cluster(RolledBack(), TheFile()));
    ItsCommitIsAhead();
    CatchUpExactly(RolledBack(), FIRST);
  }
}
