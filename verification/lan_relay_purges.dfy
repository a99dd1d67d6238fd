/** What the purges of the LAN discovery relay can be seen by, over whole runs and any schedules of purges. */
module LanRelayPurges {
  import opened Common
  import opened Limiter
  import opened LanRelay

  // ---------------------------------------------------------------- runs with a schedule of purges

  /** One request or answer, without the purge behind it. */
  function Plain(s: LanRelay.State, op: Op): LanRelay.State {
    match op
    case Ask(address, isPrivate, nonce, now) =>
      if !isPrivate || nonce in s.pending then s
      else
        var counted := s.(rates := After(s.rates, LIMIT, address, now));
        if Forwards(s, address, isPrivate, nonce, now)
        then counted.(pending := s.pending[nonce := Client(address, now + ANSWER_TIME)]) else counted
    case Answer(nonce, now) => Answered(s, nonce, now)
  }

  datatype Decision = Forwarded(yes: bool) | SentTo(client: Option<Address>)

  function Decide(s: LanRelay.State, op: Op): Decision {
    match op
    case Ask(address, isPrivate, nonce, now) => Forwarded(Forwards(s, address, isPrivate, nonce, now))
    case Answer(nonce, now) => SentTo(Receiver(s, nonce, now))
  }

  function Swept(s: LanRelay.State, purge: Option<Time>): LanRelay.State {
    match purge
    case None => s
    case Some(now) => Purge(s, now)
  }

  /** `purges[i]` is the time of the purge before the i-th operation, if there is one. */
  function RunWith(ops: seq<Op>, purges: seq<Option<Time>>): LanRelay.State
    requires |purges| == |ops|
    decreases |ops|
  {
    if ops == [] then LanRelay.State(map[], map[])
    else
      var n := |ops| - 1;
      Plain(Swept(RunWith(ops[..n], purges[..n]), purges[n]), ops[n])
  }

  /** The state the i-th operation meets. */
  function Met(ops: seq<Op>, purges: seq<Option<Time>>, i: nat): LanRelay.State
    requires |purges| == |ops| && i < |ops|
  {
    Swept(RunWith(ops[..i], purges[..i]), purges[i])
  }

  function DecisionAt(ops: seq<Op>, purges: seq<Option<Time>>, i: nat): Decision
    requires |purges| == |ops| && i < |ops|
  {
    Decide(Met(ops, purges, i), ops[i])
  }

  function Never(n: nat): (purges: seq<Option<Time>>)
    ensures |purges| == n && forall i :: 0 <= i < n ==> purges[i] == None
  {
    seq(n, i => None)
  }

  /** A purge reads the clock between two operations. */
  ghost predicate InTime(ops: seq<Op>, purges: seq<Option<Time>>) {
    && |purges| == |ops|
    && forall i :: 0 <= i < |ops| && purges[i].Some? ==>
         (i > 0 ==> ops[i - 1].now <= purges[i].value) && purges[i].value <= ops[i].now
  }

  // ---------------------------------------------------------------- a purging relay beside one that never purges

  /** What the limiter still knows of a key: counts above the limit all mean the same. */
  function Known(t: Table, key: Key, now: Time): Option<Entry> {
    if Live(t, key, now) then Some(Entry(Least(t[key].count, LIMIT.max), t[key].resetAt)) else None
  }

  ghost predicate SameRates(a: Table, b: Table, now: Time) {
    forall key :: Known(a, key, now) == Known(b, key, now)
  }

  /** b has the nonces of a, except some that have expired. */
  ghost predicate SameNonces(a: map<Nonce, Client>, b: map<Nonce, Client>, now: Time) {
    && (forall nonce :: nonce in b ==> nonce in a && a[nonce] == b[nonce])
    && (forall nonce :: nonce in a && nonce !in b ==> a[nonce].expiresAt <= now)
  }

  ghost predicate Same(a: LanRelay.State, b: LanRelay.State, now: Time) {
    SameRates(a.rates, b.rates, now) && SameNonces(a.pending, b.pending, now)
  }

  /** A request that would be forwarded but for a nonce that has expired and was not removed. */
  predicate Reuses(s: LanRelay.State, op: Op) {
    && op.Ask? && op.isPrivate && op.nonce in s.pending && s.pending[op.nonce].expiresAt <= op.now
    && Passes(s.rates, LIMIT, op.address, op.now)
  }

  lemma RatesLater(a: Table, b: Table, now: Time, later: Time)
    requires SameRates(a, b, now) && now <= later
    ensures SameRates(a, b, later)
  {
    forall key ensures Known(a, key, later) == Known(b, key, later) {
      assert Known(a, key, now) == Known(b, key, now);
    }
  }

  lemma SameLater(a: LanRelay.State, b: LanRelay.State, now: Time, later: Time)
    requires Same(a, b, now) && now <= later
    ensures Same(a, b, later)
  {
    RatesLater(a.rates, b.rates, now, later);
  }

  lemma RatesPurged(a: Table, b: Table, now: Time)
    requires SameRates(a, b, now)
    ensures SameRates(a, Purged(b, now), now)
  {
    forall key ensures Known(a, key, now) == Known(Purged(b, now), key, now) {
      assert Known(a, key, now) == Known(b, key, now);
    }
  }

  lemma SamePurged(a: LanRelay.State, b: LanRelay.State, now: Time)
    requires Same(a, b, now)
    ensures Same(a, Purge(b, now), now)
  {
    RatesPurged(a.rates, b.rates, now);
  }

  lemma PassesByKnown(t: Table, key: Key, now: Time)
    ensures Passes(t, LIMIT, key, now) <==> Known(t, key, now).None? || Known(t, key, now).value.count < LIMIT.max
  {}

  lemma KnownAfter(t: Table, key: Key, now: Time, other: Key)
    ensures Known(After(t, LIMIT, key, now), other, now)
            == if other != key then Known(t, other, now)
               else if Known(t, key, now).None? then Some(Entry(1, now + LIMIT.window))
               else Some(Entry(Least(Known(t, key, now).value.count + 1, LIMIT.max), Known(t, key, now).value.resetAt))
  {}

  lemma RatesCounted(a: Table, b: Table, key: Key, now: Time)
    requires SameRates(a, b, now)
    ensures SameRates(After(a, LIMIT, key, now), After(b, LIMIT, key, now), now)
  {
    forall other ensures Known(After(a, LIMIT, key, now), other, now) == Known(After(b, LIMIT, key, now), other, now) {
      KnownAfter(a, key, now, other);
      KnownAfter(b, key, now, other);
      assert Known(a, other, now) == Known(b, other, now);
      assert Known(a, key, now) == Known(b, key, now);
    }
  }

  /** Counting another request against a key that is over its limit changes nothing that can be seen. */
  lemma RatesOverLimit(a: Table, b: Table, key: Key, now: Time)
    requires SameRates(a, b, now) && !Passes(a, LIMIT, key, now)
    ensures SameRates(a, After(b, LIMIT, key, now), now)
  {
    PassesByKnown(a, key, now);
    forall other ensures Known(a, other, now) == Known(After(b, LIMIT, key, now), other, now) {
      KnownAfter(b, key, now, other);
      assert Known(a, other, now) == Known(b, other, now);
      assert Known(a, key, now) == Known(b, key, now);
    }
  }

  lemma SamePasses(a: Table, b: Table, key: Key, now: Time)
    requires SameRates(a, b, now)
    ensures Passes(a, LIMIT, key, now) == Passes(b, LIMIT, key, now)
  {
    PassesByKnown(a, key, now);
    PassesByKnown(b, key, now);
    assert Known(a, key, now) == Known(b, key, now);
  }

  lemma SameAsk(a: LanRelay.State, b: LanRelay.State, op: Op)
    requires op.Ask? && Same(a, b, op.now) && !Reuses(a, op)
    ensures Decide(a, op) == Decide(b, op) && Same(Plain(a, op), Plain(b, op), op.now)
  {
    SamePasses(a.rates, b.rates, op.address, op.now);
    RatesCounted(a.rates, b.rates, op.address, op.now);
    if op.isPrivate && op.nonce in a.pending && op.nonce !in b.pending {
      RatesOverLimit(a.rates, b.rates, op.address, op.now);
    }
  }

  lemma SameStep(a: LanRelay.State, b: LanRelay.State, op: Op)
    requires Same(a, b, op.now) && !Reuses(a, op)
    ensures Decide(a, op) == Decide(b, op) && Same(Plain(a, op), Plain(b, op), op.now)
  {
    if op.Ask? {
      SameAsk(a, b, op);
    }
  }

  // ---------------------------------------------------------------- over a run

  /** Some request of a relay that never purges reuses an expired nonce. */
  ghost predicate ReusesAt(ops: seq<Op>, i: nat) {
    i < |ops| && Reuses(Met(ops, Never(|ops|), i), ops[i])
  }

  ghost predicate NoReuseBefore(ops: seq<Op>, n: nat) {
    forall i :: 0 <= i < n ==> !ReusesAt(ops, i)
  }

  /** What the n-th operation meets is the same with the purges and without, if nothing was reused before. */
  lemma {:induction false} MeetsSame(ops: seq<Op>, purges: seq<Option<Time>>, n: nat)
    requires ClockedOps(ops) && InTime(ops, purges) && n < |ops| && NoReuseBefore(ops, n)
    ensures Same(Met(ops, Never(|ops|), n), Met(ops, purges, n), ops[n].now)
    decreases n
  {
    if n == 0 {
      assert ops[..0] == [] && purges[..0] == [] && Never(|ops|)[..0] == [];
      SweptSame(LanRelay.State(map[], map[]), LanRelay.State(map[], map[]), purges[0], 0, ops[0].now);
    } else {
      var a, b := Met(ops, Never(|ops|), n - 1), Met(ops, purges, n - 1);
      MeetsSame(ops, purges, n - 1);
      assert !ReusesAt(ops, n - 1);
      SameStep(a, b, ops[n - 1]);
      MetNext(ops, Never(|ops|), n);
      MetNext(ops, purges, n);
      SweptSame(Plain(a, ops[n - 1]), Plain(b, ops[n - 1]), purges[n], ops[n - 1].now, ops[n].now);
    }
  }

  lemma MetNext(ops: seq<Op>, purges: seq<Option<Time>>, n: nat)
    requires |purges| == |ops| && 0 < n < |ops|
    ensures Met(ops, purges, n) == Swept(Plain(Met(ops, purges, n - 1), ops[n - 1]), purges[n])
  {
    assert ops[..n][..n - 1] == ops[..n - 1] && purges[..n][..n - 1] == purges[..n - 1];
  }

  lemma SweptSame(a: LanRelay.State, b: LanRelay.State, purge: Option<Time>, before: Time, now: Time)
    requires Same(a, b, before) && before <= now
    requires purge.Some? ==> before <= purge.value <= now
    ensures Same(a, Swept(b, purge), now)
  {
    if purge.Some? {
      SameLater(a, b, before, purge.value);
      SamePurged(a, b, purge.value);
      SameLater(a, Purge(b, purge.value), purge.value, now);
    } else {
      SameLater(a, b, before, now);
    }
  }

  ghost predicate DecidesAlike(ops: seq<Op>, a: seq<Option<Time>>, b: seq<Option<Time>>) {
    |a| == |b| == |ops| && forall i :: 0 <= i < |ops| ==> DecisionAt(ops, a, i) == DecisionAt(ops, b, i)
  }

  lemma AlikeWithoutReuse(ops: seq<Op>, purges: seq<Option<Time>>)
    requires ClockedOps(ops) && InTime(ops, purges) && NoReuseBefore(ops, |ops|)
    ensures DecidesAlike(ops, Never(|ops|), purges)
  {
    forall i | 0 <= i < |ops| ensures DecisionAt(ops, Never(|ops|), i) == DecisionAt(ops, purges, i) {
      MeetsSame(ops, purges, i);
      assert !ReusesAt(ops, i);
      SameStep(Met(ops, Never(|ops|), i), Met(ops, purges, i), ops[i]);
    }
  }

  /** One purge, right before a request that reuses a nonce, is seen by it. */
  lemma ReuseIsSeen(ops: seq<Op>, i: nat) returns (purges: seq<Option<Time>>)
    requires ClockedOps(ops) && ReusesAt(ops, i)
    ensures InTime(ops, purges) && !DecidesAlike(ops, Never(|ops|), purges)
  {
    purges := Never(|ops|)[i := Some(ops[i].now)];
    assert purges[..i] == Never(|ops|)[..i];
    var s := Met(ops, Never(|ops|), i);
    assert Met(ops, purges, i) == Purge(s, ops[i].now);
    PurgeShowsOnlyInReusedNonces(s, ops[i].address, ops[i].isPrivate, ops[i].nonce, ops[i].now);
    assert DecisionAt(ops, Never(|ops|), i) != DecisionAt(ops, purges, i);
  }

  /**
   A client asks, gets no answer, and asks again with the same nonce when it has expired: without a purge the second
   request is dropped, with one between the two it is forwarded.
   */
  lemma ReuseAfterFiveSeconds(address: Address, nonce: Nonce)
    ensures var ops := [Ask(address, true, nonce, 0), Ask(address, true, nonce, ANSWER_TIME)];
            && ClockedOps(ops) && ReusesAt(ops, 1)
            && InTime(ops, [None, None]) && InTime(ops, [None, Some(ANSWER_TIME)])
            && DecisionAt(ops, [None, None], 1) == Forwarded(false)
            && DecisionAt(ops, [None, Some(ANSWER_TIME)], 1) == Forwarded(true)
  {
    var first := Ask(address, true, nonce, 0);
    var ops := [first, Ask(address, true, nonce, ANSWER_TIME)];
    assert ops[..1] == [first] && [first][..0] == [];
    var never: seq<Option<Time>>, purged: seq<Option<Time>> := [None, None], [None, Some(ANSWER_TIME)];
    assert Never(2) == never && never[..1] == [None] && purged[..1] == [None];
    var asked := Plain(LanRelay.State(map[], map[]), first);
    assert RunWith([first], [None]) == asked;
    assert asked == LanRelay.State(map[address := Entry(1, LIMIT.window)], map[nonce := Client(address, ANSWER_TIME)]);
  }

  /**
   Under a clock that does not go back, a run decides the same for every schedule of purges if and only if no
   request that its limiter passes reuses an expired nonce.
   */
  lemma PurgesShowOnlyInReusedNonces(ops: seq<Op>)
    requires ClockedOps(ops)
    ensures (forall a, b :: InTime(ops, a) && InTime(ops, b) ==> DecidesAlike(ops, a, b))
            <==> (forall i :: 0 <= i < |ops| ==> !ReusesAt(ops, i))
  {
    if forall i :: 0 <= i < |ops| ==> !ReusesAt(ops, i) {
      forall a, b | InTime(ops, a) && InTime(ops, b) ensures DecidesAlike(ops, a, b) {
        AlikeWithoutReuse(ops, a);
        AlikeWithoutReuse(ops, b);
      }
    } else {
      var i :| 0 <= i < |ops| && ReusesAt(ops, i);
      var purges := ReuseIsSeen(ops, i);
      assert InTime(ops, Never(|ops|)) && InTime(ops, purges);
    }
  }

  // ---------------------------------------------------------------- the relay's own schedule

  /** The relay purges behind a forwarded request when one of its tables has grown too large. */
  predicate PurgesBehind(s: LanRelay.State, op: Op) {
    op.Ask? && Forwards(s, op.address, op.isPrivate, op.nonce, op.now) && Crowded(Plain(s, op))
  }

  lemma StepIsPlainAndPurge(s: LanRelay.State, op: Op)
    ensures LanRelay.Step(s, op) == Swept(Plain(s, op), if PurgesBehind(s, op) then Some(op.now) else None)
  {}

  function OwnSchedule(ops: seq<Op>): (purges: seq<Option<Time>>)
    ensures |purges| == |ops|
    decreases |ops|
  {
    if ops == [] then []
    else
      var n := |ops| - 1;
      var before := ops[..n];
      OwnSchedule(before)
      + [if n > 0 && PurgesBehind(LanRelay.Run(LanRelay.State(map[], map[]), before[..n - 1]), before[n - 1])
         then Some(before[n - 1].now) else None]
  }

  lemma OwnScheduleBefore(ops: seq<Op>)
    requires ops != []
    ensures OwnSchedule(ops)[..|ops| - 1] == OwnSchedule(ops[..|ops| - 1])
  {}

  /** What an operation meets depends on what was before it. */
  lemma MetBefore(ops: seq<Op>, i: nat)
    requires i + 1 < |ops|
    ensures Met(ops, OwnSchedule(ops), i) == Met(ops[..|ops| - 1], OwnSchedule(ops[..|ops| - 1]), i)
  {
    var n, own := |ops| - 1, OwnSchedule(ops);
    OwnScheduleBefore(ops);
    assert ops[..n][..i] == ops[..i] && own[..n][..i] == own[..i];
  }

  /** The last operation meets what the one before it left, purged when the relay purged. */
  lemma MetLast(ops: seq<Op>, s: LanRelay.State)
    requires |ops| >= 2 && s == LanRelay.Run(LanRelay.State(map[], map[]), ops[..|ops| - 2])
    requires s == Met(ops, OwnSchedule(ops), |ops| - 2)
    ensures Met(ops, OwnSchedule(ops), |ops| - 1) == LanRelay.Step(s, ops[|ops| - 2])
  {
    var n := |ops| - 1;
    assert ops[..n][..n - 1] == ops[..n - 1];
    MetNext(ops, OwnSchedule(ops), n);
    StepIsPlainAndPurge(s, ops[n - 1]);
  }

  lemma RunSnoc(ops: seq<Op>, n: nat)
    requires 0 < n <= |ops|
    ensures LanRelay.Run(LanRelay.State(map[], map[]), ops[..n])
            == LanRelay.Step(LanRelay.Run(LanRelay.State(map[], map[]), ops[..n - 1]), ops[n - 1])
  {
    assert ops[..n][..n - 1] == ops[..n - 1];
  }

  /** Every operation of the relay meets what it would meet under the schedule of its own purges. */
  lemma {:induction false} OwnRunIsScheduled(ops: seq<Op>, i: nat)
    requires i < |ops|
    ensures LanRelay.Run(LanRelay.State(map[], map[]), ops[..i]) == Met(ops, OwnSchedule(ops), i)
    decreases |ops|, i
  {
    var n := |ops| - 1;
    if i < n {
      OwnRunIsScheduled(ops[..n], i);
      assert ops[..n][..i] == ops[..i];
      MetBefore(ops, i);
    } else if n > 0 {
      OwnRunIsScheduled(ops, n - 1);
      RunSnoc(ops, n);
      MetLast(ops, LanRelay.Run(LanRelay.State(map[], map[]), ops[..n - 1]));
    }
  }

  lemma {:induction false} OwnScheduleInTime(ops: seq<Op>)
    requires ClockedOps(ops)
    ensures InTime(ops, OwnSchedule(ops))
    decreases |ops|
  {
    if ops != [] {
      OwnScheduleInTime(ops[..|ops| - 1]);
    }
  }

  /** Without such a request the relay decides everything as one that never purges. */
  lemma OwnPurgesUnseen(ops: seq<Op>, i: nat)
    requires ClockedOps(ops) && i < |ops| && forall k :: 0 <= k < |ops| ==> !ReusesAt(ops, k)
    ensures Decide(LanRelay.Run(LanRelay.State(map[], map[]), ops[..i]), ops[i]) == DecisionAt(ops, Never(|ops|), i)
  {
    OwnRunIsScheduled(ops, i);
    OwnScheduleInTime(ops);
    AlikeWithoutReuse(ops, OwnSchedule(ops));
  }
}
