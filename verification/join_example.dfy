/**
 A run in which a second device joins: the theorems about agreement speak of states that exist. The
 first device creates the group, commits an add, learns that it was accepted, merges it and sends
 the Welcome; the second device joins from the log.
 */
module JoinExample {
  import opened Common
  import opened Delivery
  import opened DeliveryInvariant
  import opened MlsGroup
  import opened Agreement

  const CHANNEL: ChannelId := 0
  const FIRST: DeviceId := 1
  const SECOND: DeviceId := 2

  function TheCommit(): Wire {
    CommitWire(FIRST, 7, [])
  }

  function CommitRequest(): Submission {
    Submission(CHANNEL, 9, FIRST, true, 5, Commit, 1, Some(0), None, TheCommit(), None, 0)
  }

  function WelcomeRequest(): Submission {
    Submission(CHANNEL, 9, FIRST, false, 6, Welcome, 1, None, Some(SECOND), WelcomeWire([TheCommit()]), None, 0)
  }

  /** A group of the first device, with or without its pending commit. */
  function Alone(pending: Option<Wire>): Device {
    Device(Some(Group(0, [], pending)), if pending.Some? then 5 else 0, Unknown)
  }

  function Merger(): Device {
    Device(Some(Group(0, [TheCommit()], None)), 5, WasAccepted)
  }

  function Joiner(): Device {
    Device(Some(Group(1, [TheCommit()], None)), 0, Unknown)
  }

  function NoGroup(): Device {
    Device(None, 0, Unknown)
  }

  function Database(messages: map<Position, MessageRow>, channels: map<ChannelId, ChannelState>): Db {
    Db({CHANNEL}, {FIRST, SECOND}, {FIRST}, messages, map[], map[], channels, map[])
  }

  function FreshGroup(): Db {
    Database(map[], map[CHANNEL := ChannelState(0, 1, FIRST)])
  }

  function Committed(): Db {
    Database(map[Position(CHANNEL, 1) := NewRow(CommitRequest())], map[CHANNEL := ChannelState(1, 2, FIRST)])
  }

  function Welcomed(): Db {
    Database(map[Position(CHANNEL, 1) := NewRow(CommitRequest()), Position(CHANNEL, 2) := NewRow(WelcomeRequest())],
             map[CHANNEL := ChannelState(1, 3, FIRST)])
  }

  function State(db: Db, first: Device, second: Device, sent: set<Submission>, answers: set<Answer>): System {
    System(CHANNEL, db, map[FIRST := first, SECOND := second], sent, answers)
  }

  function Last(): System {
    State(Welcomed(), Merger(), Joiner(), {CommitRequest(), WelcomeRequest()},
          {Answer(CommitRequest(), true), Answer(WelcomeRequest(), true)})
  }

  /** The event is possible and leads from one state to the other. */
  ghost predicate Leads(s: System, e: Event, t: System) {
    Contiguous(s.db) && Enabled(s, e) && Next(s, e) == t
  }

  lemma Begin()
    ensures Leads(State(Empty({CHANNEL}), NoGroup(), NoGroup(), {}, {}), Serve(DevicesOp({FIRST, SECOND}, {FIRST})),
                  State(Database(map[], map[]), NoGroup(), NoGroup(), {}, {}))
    ensures Leads(State(Database(map[], map[]), NoGroup(), NoGroup(), {}, {}), Serve(InitializeOp(CHANNEL, FIRST, true)),
                  State(FreshGroup(), NoGroup(), NoGroup(), {}, {}))
  {}

  lemma CreateAndPrepare()
    ensures Leads(State(FreshGroup(), NoGroup(), NoGroup(), {}, {}), Create(FIRST),
                  State(FreshGroup(), Alone(None), NoGroup(), {}, {}))
    ensures Leads(State(FreshGroup(), Alone(None), NoGroup(), {}, {}), Prepare(FIRST, 5, 7),
                  State(FreshGroup(), Alone(Some(TheCommit())), NoGroup(), {}, {}))
    ensures Leads(State(FreshGroup(), Alone(Some(TheCommit())), NoGroup(), {}, {}), SendCommit(FIRST, 9, true, 0),
                  State(FreshGroup(), Alone(Some(TheCommit())), NoGroup(), {CommitRequest()}, {}))
  {}

  lemma CommitIsStored()
    ensures Submitted(FreshGroup(), CommitRequest()) == Committed() && Decide(FreshGroup(), CommitRequest()).Accepted?
  {}

  lemma Handles(s: System, req: Submission, db: Db, answers: set<Answer>)
    requires Contiguous(s.db) && req in s.sent && Submitted(s.db, req) == db && Decide(s.db, req).Accepted?
    requires answers == s.answers + {Answer(req, true)}
    ensures Leads(s, Handle(req), s.(db := db, answers := answers))
  {}

  lemma HandleCommit()
    ensures Leads(State(FreshGroup(), Alone(Some(TheCommit())), NoGroup(), {CommitRequest()}, {}), Handle(CommitRequest()),
                  State(Committed(), Alone(Some(TheCommit())), NoGroup(), {CommitRequest()}, {Answer(CommitRequest(), true)}))
  {
    CommitIsStored();
    Handles(State(FreshGroup(), Alone(Some(TheCommit())), NoGroup(), {CommitRequest()}, {}), CommitRequest(),
            Committed(), {Answer(CommitRequest(), true)});
  }

  lemma LearnAndMerge()
    ensures Leads(State(Committed(), Alone(Some(TheCommit())), NoGroup(), {CommitRequest()}, {Answer(CommitRequest(), true)}),
                  Learn(FIRST, Answer(CommitRequest(), true)),
                  State(Committed(), Alone(Some(TheCommit())).(outcome := WasAccepted), NoGroup(), {CommitRequest()},
                        {Answer(CommitRequest(), true)}))
    ensures Leads(State(Committed(), Alone(Some(TheCommit())).(outcome := WasAccepted), NoGroup(), {CommitRequest()},
                        {Answer(CommitRequest(), true)}),
                  AcceptPending(FIRST),
                  State(Committed(), Merger(), NoGroup(), {CommitRequest()}, {Answer(CommitRequest(), true)}))
  {
    assert [] + [TheCommit()] == [TheCommit()];
  }

  lemma SendsWelcome()
    ensures Leads(State(Committed(), Merger(), NoGroup(), {CommitRequest()}, {Answer(CommitRequest(), true)}),
                  SendWelcome(FIRST, 1, SECOND, 6, 9, 0),
                  State(Committed(), Merger(), NoGroup(), {CommitRequest(), WelcomeRequest()}, {Answer(CommitRequest(), true)}))
  {
    assert [TheCommit()][..1] == [TheCommit()];
  }

  lemma WelcomeIsStored()
    ensures Submitted(Committed(), WelcomeRequest()) == Welcomed() && Decide(Committed(), WelcomeRequest()).Accepted?
  {}

  lemma HandleWelcome()
    ensures Leads(State(Committed(), Merger(), NoGroup(), {CommitRequest(), WelcomeRequest()}, {Answer(CommitRequest(), true)}),
                  Handle(WelcomeRequest()),
                  State(Welcomed(), Merger(), NoGroup(), {CommitRequest(), WelcomeRequest()},
                        {Answer(CommitRequest(), true), Answer(WelcomeRequest(), true)}))
  {
    WelcomeIsStored();
    Handles(State(Committed(), Merger(), NoGroup(), {CommitRequest(), WelcomeRequest()}, {Answer(CommitRequest(), true)}),
            WelcomeRequest(), Welcomed(), {Answer(CommitRequest(), true), Answer(WelcomeRequest(), true)});
  }

  lemma Joins()
    ensures Leads(State(Welcomed(), Merger(), NoGroup(), {CommitRequest(), WelcomeRequest()},
                        {Answer(CommitRequest(), true), Answer(WelcomeRequest(), true)}),
                  Join(SECOND, 1), Last())
  {
    FetchesExactly(State(Welcomed(), Merger(), NoGroup(), {CommitRequest(), WelcomeRequest()},
                         {Answer(CommitRequest(), true), Answer(WelcomeRequest(), true)}), SECOND, 1);
  }

  /** The state can be reached from the start. */
  ghost predicate Reached(t: System) {
    exists events :: Leaves(events, t)
  }

  ghost predicate Leaves(events: seq<Event>, t: System) {
    StartOk() && SystemRun(Start(CHANNEL, {CHANNEL}, {FIRST, SECOND}), events) == t
  }

  ghost predicate StartOk() {
    SysInv(Start(CHANNEL, {CHANNEL}, {FIRST, SECOND}))
  }

  lemma ReachedNext(s: System, e: Event, t: System)
    requires Reached(s) && Leads(s, e, t)
    ensures Reached(t)
  {
    var events :| Leaves(events, s);
    RunNext(Start(CHANNEL, {CHANNEL}, {FIRST, SECOND}), events, e);
    assert Leaves(events + [e], t);
  }

  lemma StartIsReached()
    ensures Reached(State(Empty({CHANNEL}), NoGroup(), NoGroup(), {}, {}))
  {
    StartInv(CHANNEL, {CHANNEL}, {FIRST, SECOND});
    var s := State(Empty({CHANNEL}), NoGroup(), NoGroup(), {}, {});
    assert Start(CHANNEL, {CHANNEL}, {FIRST, SECOND}) == s;
    assert Leaves([], s);
  }

  // ---------------------------------------------------------------- the states on the way, each reached from the one before

  function Founded(): System {
    State(FreshGroup(), Alone(None), NoGroup(), {}, {})
  }

  function Pending(): System {
    State(FreshGroup(), Alone(Some(TheCommit())), NoGroup(), {CommitRequest()}, {})
  }

  function CommitStored(): System {
    State(Committed(), Alone(Some(TheCommit())), NoGroup(), {CommitRequest()}, {Answer(CommitRequest(), true)})
  }

  function CommitMerged(): System {
    State(Committed(), Merger(), NoGroup(), {CommitRequest()}, {Answer(CommitRequest(), true)})
  }

  function Invited(): System {
    State(Welcomed(), Merger(), NoGroup(), {CommitRequest(), WelcomeRequest()},
          {Answer(CommitRequest(), true), Answer(WelcomeRequest(), true)})
  }

  lemma ReachedTwice(s: System, e: Event, t: System, f: Event, u: System)
    requires Reached(s) && Leads(s, e, t) && Leads(t, f, u)
    ensures Reached(u)
  {
    ReachedNext(s, e, t);
    ReachedNext(t, f, u);
  }

  lemma GroupIsReached()
    ensures Reached(State(FreshGroup(), NoGroup(), NoGroup(), {}, {}))
  {
    StartIsReached();
    Begin();
    ReachedTwice(State(Empty({CHANNEL}), NoGroup(), NoGroup(), {}, {}), Serve(DevicesOp({FIRST, SECOND}, {FIRST})),
                 State(Database(map[], map[]), NoGroup(), NoGroup(), {}, {}), Serve(InitializeOp(CHANNEL, FIRST, true)),
                 State(FreshGroup(), NoGroup(), NoGroup(), {}, {}));
  }

  lemma FoundedIsReached()
    ensures Reached(Founded())
  {
    GroupIsReached();
    CreateAndPrepare();
    ReachedNext(State(FreshGroup(), NoGroup(), NoGroup(), {}, {}), Create(FIRST), Founded());
  }

  lemma PendingIsReached()
    ensures Reached(Pending())
  {
    FoundedIsReached();
    CreateAndPrepare();
    ReachedTwice(Founded(), Prepare(FIRST, 5, 7), State(FreshGroup(), Alone(Some(TheCommit())), NoGroup(), {}, {}),
                 SendCommit(FIRST, 9, true, 0), Pending());
  }

  lemma StoredIsReached()
    ensures Reached(CommitStored())
  {
    PendingIsReached();
    HandleCommit();
    ReachedNext(Pending(), Handle(CommitRequest()), CommitStored());
  }

  lemma MergedIsReached()
    ensures Reached(CommitMerged())
  {
    StoredIsReached();
    LearnAndMerge();
    ReachedTwice(CommitStored(), Learn(FIRST, Answer(CommitRequest(), true)),
                 State(Committed(), Alone(Some(TheCommit())).(outcome := WasAccepted), NoGroup(), {CommitRequest()},
                       {Answer(CommitRequest(), true)}),
                 AcceptPending(FIRST), CommitMerged());
  }

  lemma InvitedIsReached()
    ensures Reached(Invited())
  {
    MergedIsReached();
    SendsWelcome();
    HandleWelcome();
    ReachedTwice(CommitMerged(), SendWelcome(FIRST, 1, SECOND, 6, 9, 0),
                 State(Committed(), Merger(), NoGroup(), {CommitRequest(), WelcomeRequest()}, {Answer(CommitRequest(), true)}),
                 Handle(WelcomeRequest()), Invited());
  }

  /** From the empty server a state is reached in which both devices are in epoch 1 with the same commit. */
  lemma TwoMembersAreReached()
    ensures Reached(Last()) && HasGroup(Last(), FIRST) && HasGroup(Last(), SECOND)
    ensures GroupOf(Last(), FIRST).history == GroupOf(Last(), SECOND).history == [TheCommit()]
  {
    InvitedIsReached();
    Joins();
    ReachedNext(Invited(), Join(SECOND, 1), Last());
  }
}
