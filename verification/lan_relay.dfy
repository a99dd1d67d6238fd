/** The LAN discovery relay: a window limiter per address, and the nonces that wait for an answer. */
module LanRelay {
  import opened Common
  import opened Limiter

  type Nonce = nat
  type Address = nat

  const LIMIT: Limit := Limit(60_000, 30)
  const ANSWER_TIME: nat := 5000
  const MAX_ENTRIES: nat := 1000

  datatype Client = Client(address: Address, expiresAt: Time)

  datatype State = State(rates: Table, pending: map<Nonce, Client>)

  /** A nonce that is still in the table blocks another request with it, expired or not. */
  predicate Forwards(s: State, address: Address, isPrivate: bool, nonce: Nonce, now: Time) {
    isPrivate && nonce !in s.pending && Passes(s.rates, LIMIT, address, now)
  }

  function PurgedPending(pending: map<Nonce, Client>, now: Time): map<Nonce, Client> {
    map nonce | nonce in pending && pending[nonce].expiresAt > now :: pending[nonce]
  }

  function Purge(s: State, now: Time): State {
    State(Purged(s.rates, now), PurgedPending(s.pending, now))
  }

  predicate Crowded(s: State) {
    |s.pending| > MAX_ENTRIES || |s.rates| > MAX_ENTRIES
  }

  function Asked(s: State, address: Address, isPrivate: bool, nonce: Nonce, now: Time): State {
    if !isPrivate || nonce in s.pending then s
    else
      var counted := s.(rates := After(s.rates, LIMIT, address, now));
      if !Forwards(s, address, isPrivate, nonce, now) then counted
      else
        var waiting := counted.(pending := s.pending[nonce := Client(address, now + ANSWER_TIME)]);
        if Crowded(waiting) then Purge(waiting, now) else waiting
  }

  /** The client an answer of the backend goes to. */
  function Receiver(s: State, nonce: Nonce, now: Time): Option<Address> {
    if nonce in s.pending && s.pending[nonce].expiresAt > now then Some(s.pending[nonce].address) else None
  }

  function Answered(s: State, nonce: Nonce, now: Time): State {
    if Receiver(s, nonce, now).Some? then s.(pending := s.pending - {nonce}) else s
  }

  datatype Op =
    | Ask(address: Address, isPrivate: bool, nonce: Nonce, now: Time)
    | Answer(nonce: Nonce, now: Time)

  function Step(s: State, op: Op): State {
    match op
    case Ask(address, isPrivate, nonce, now) => Asked(s, address, isPrivate, nonce, now)
    case Answer(nonce, now) => Answered(s, nonce, now)
  }

  function Run(s: State, ops: seq<Op>): State
    decreases |ops|
  {
    if ops == [] then s else Step(Run(s, ops[..|ops| - 1]), ops[|ops| - 1])
  }

  /** The i-th request was forwarded from this address, and no later one had its nonce. */
  ghost predicate WaitsSince(ops: seq<Op>, i: nat, nonce: Nonce, client: Client) {
    && i < |ops| && ops[i].Ask? && ops[i].nonce == nonce && ops[i].address == client.address
    && client.expiresAt == ops[i].now + ANSWER_TIME
    && Forwards(Run(State(map[], map[]), ops[..i]), ops[i].address, ops[i].isPrivate, nonce, ops[i].now)
    && forall j :: i < j < |ops| && ops[j].Answer? && ops[j].nonce == nonce ==>
         Receiver(Run(State(map[], map[]), ops[..j]), nonce, ops[j].now) == None
  }

  ghost predicate AllWait(ops: seq<Op>) {
    var s := Run(State(map[], map[]), ops);
    forall nonce :: nonce in s.pending ==> exists i :: WaitsSince(ops, i, nonce, s.pending[nonce])
  }

  lemma WaitsOn(ops: seq<Op>, op: Op, i: nat, nonce: Nonce, client: Client)
    requires WaitsSince(ops, i, nonce, client)
    requires op.Answer? && op.nonce == nonce ==> Receiver(Run(State(map[], map[]), ops), nonce, op.now) == None
    ensures WaitsSince(ops + [op], i, nonce, client)
  {
    assert (ops + [op])[..i] == ops[..i];
    forall j | i < j < |ops + [op]| && (ops + [op])[j].Answer? && (ops + [op])[j].nonce == nonce
      ensures Receiver(Run(State(map[], map[]), (ops + [op])[..j]), nonce, (ops + [op])[j].now) == None
    {
      assert (ops + [op])[..j] == ops[..j];
      if j == |ops| {
        assert ops[..j] == ops;
      }
    }
  }

  lemma {:induction false} PendingIsWaiting(ops: seq<Op>)
    ensures AllWait(ops)
    decreases |ops|
  {
    if ops != [] {
      var earlier, op := ops[..|ops| - 1], ops[|ops| - 1];
      var before, after := Run(State(map[], map[]), earlier), Run(State(map[], map[]), ops);
      PendingIsWaiting(earlier);
      assert ops == earlier + [op];
      forall nonce | nonce in after.pending ensures exists i :: WaitsSince(ops, i, nonce, after.pending[nonce]) {
        if nonce in before.pending {
          var i :| WaitsSince(earlier, i, nonce, before.pending[nonce]);
          WaitsOn(earlier, op, i, nonce, before.pending[nonce]);
        } else {
          assert ops[..|earlier|] == earlier;
          assert WaitsSince(ops, |earlier|, nonce, after.pending[nonce]);
        }
      }
    }
  }

  /**
   An answer goes to the address whose request with that nonce was forwarded less than five seconds
   ago and has not been answered yet.
   */
  lemma AnswersReachTheAsker(ops: seq<Op>, nonce: Nonce, now: Time)
    requires Receiver(Run(State(map[], map[]), ops), nonce, now).Some?
    ensures exists i: nat :: WaitsSince(ops, i, nonce, Run(State(map[], map[]), ops).pending[nonce])
                        && ops[i].address == Receiver(Run(State(map[], map[]), ops), nonce, now).value
                        && now < ops[i].now + ANSWER_TIME
  {
    PendingIsWaiting(ops);
    var i :| WaitsSince(ops, i, nonce, Run(State(map[], map[]), ops).pending[nonce]);
  }

  // ---------------------------------------------------------------- the relay as a limiter

  predicate Counts(s: State, op: Op) {
    op.Ask? && op.isPrivate && op.nonce !in s.pending
  }

  /** The request as the limiter sees it, with the purge that follows it. */
  function AsRequest(s: State, op: Op): Request
    requires op.Ask?
  {
    var waiting := State(After(s.rates, LIMIT, op.address, op.now),
                         s.pending[op.nonce := Client(op.address, op.now + ANSWER_TIME)]);
    Request(op.address, op.now, Forwards(s, op.address, op.isPrivate, op.nonce, op.now) && Crowded(waiting))
  }

  /** The requests of a run that are counted against their address. */
  function Counted(ops: seq<Op>): seq<Request>
    decreases |ops|
  {
    if ops == [] then []
    else
      var earlier, op := ops[..|ops| - 1], ops[|ops| - 1];
      var before := Run(State(map[], map[]), earlier);
      Counted(earlier) + (if Counts(before, op) then [AsRequest(before, op)] else [])
  }

  /** How many requests of an address are forwarded in a half-open interval. */
  function ForwardedIn(ops: seq<Op>, address: Address, from: Time, to: Time): nat
    decreases |ops|
  {
    if ops == [] then 0
    else
      var earlier, op := ops[..|ops| - 1], ops[|ops| - 1];
      var before := Run(State(map[], map[]), earlier);
      ForwardedIn(earlier, address, from, to)
      + (if op.Ask? && op.address == address && from <= op.now < to
            && Forwards(before, op.address, op.isPrivate, op.nonce, op.now) then 1 else 0)
  }

  ghost predicate ClockedOps(ops: seq<Op>) {
    forall i, j :: 0 <= i < j < |ops| ==> ops[i].now <= ops[j].now
  }

  lemma RatesStep(s: State, op: Op)
    ensures Step(s, op).rates == if Counts(s, op) then Limiter.Step(s.rates, LIMIT, AsRequest(s, op)) else s.rates
  {}

  /** The rates of the relay are those of a limiter that sees the counted requests, and forwarding is passing it. */
  lemma {:induction false} RelayIsLimiter(ops: seq<Op>, address: Address, from: Time, to: Time)
    ensures Run(State(map[], map[]), ops).rates == Limiter.Run(map[], LIMIT, Counted(ops))
    ensures ForwardedIn(ops, address, from, to) == Passed(map[], LIMIT, Counted(ops), address, from, to)
    decreases |ops|
  {
    if ops != [] {
      var earlier, op := ops[..|ops| - 1], ops[|ops| - 1];
      var before := Run(State(map[], map[]), earlier);
      RelayIsLimiter(earlier, address, from, to);
      RatesStep(before, op);
      if Counts(before, op) {
        var all := Counted(earlier) + [AsRequest(before, op)];
        assert Counted(ops) == all && all[..|all| - 1] == Counted(earlier);
      } else {
        assert Counted(ops) == Counted(earlier);
      }
    }
  }

  lemma {:induction false} CountedIsClocked(ops: seq<Op>)
    requires ClockedOps(ops)
    ensures Clocked(Counted(ops))
    ensures ops != [] ==> NotBefore(Counted(ops), ops[|ops| - 1].now)
    decreases |ops|
  {
    if ops != [] {
      CountedIsClocked(ops[..|ops| - 1]);
    }
  }

  /** Under a clock that does not go back, at most 59 requests of an address are forwarded in any minute. */
  lemma AtMost59PerMinute(ops: seq<Op>, address: Address, from: Time)
    requires ClockedOps(ops)
    ensures ForwardedIn(ops, address, from, from + 60_000) <= 59
  {
    CountedIsClocked(ops);
    RelayIsLimiter(ops, address, from, from + 60_000);
    SlidingBound(LIMIT, Counted(ops), address, from);
  }

  /**
   Purging changes no answer, and no forwarding decision except one: a request that uses a nonce
   whose entry has expired is dropped before the purge and may be forwarded after it.
   */
  lemma PurgeShowsOnlyInReusedNonces(s: State, address: Address, isPrivate: bool, nonce: Nonce, now: Time)
    ensures Receiver(Purge(s, now), nonce, now) == Receiver(s, nonce, now)
    ensures Forwards(Purge(s, now), address, isPrivate, nonce, now) != Forwards(s, address, isPrivate, nonce, now)
            <==> isPrivate && nonce in s.pending && s.pending[nonce].expiresAt <= now
                 && Passes(s.rates, LIMIT, address, now)
  {
    assert Passes(Purged(s.rates, now), LIMIT, address, now) == Passes(s.rates, LIMIT, address, now);
  }

  class Relay {
    var rates: Table
    var pending: map<Nonce, Client>

    function Value(): State
      reads this
    {
      State(rates, pending)
    }

    constructor ()
      ensures Value() == State(map[], map[])
    {
      rates, pending := map[], map[];
    }

    method PurgeAll(now: Time)
      modifies this
      ensures Value() == Purge(old(Value()), now)
    {
      pending := map nonce | nonce in pending && pending[nonce].expiresAt > now :: pending[nonce];
      rates := map key | key in rates && rates[key].resetAt > now :: rates[key];
    }

    method FromClient(address: Address, isPrivate: bool, nonce: Nonce, now: Time) returns (forwarded: bool)
      modifies this
      ensures forwarded == Forwards(old(Value()), address, isPrivate, nonce, now)
      ensures Value() == Asked(old(Value()), address, isPrivate, nonce, now)
    {
      if !isPrivate || nonce in pending {
        return false;
      }
      var rate := if address !in rates || rates[address].resetAt <= now then Entry(0, now + LIMIT.window) else rates[address];
      rate := rate.(count := rate.count + 1);
      rates := rates[address := rate];
      if rate.count > LIMIT.max {
        return false;
      }
      pending := pending[nonce := Client(address, now + ANSWER_TIME)];
      if |pending| > MAX_ENTRIES || |rates| > MAX_ENTRIES {
        PurgeAll(now);
      }
      return true;
    }

    method FromBackend(nonce: Nonce, now: Time) returns (receiver: Option<Address>)
      modifies this
      ensures receiver == Receiver(old(Value()), nonce, now)
      ensures Value() == Answered(old(Value()), nonce, now)
    {
      if nonce !in pending || pending[nonce].expiresAt <= now {
        return None;
      }
      receiver := Some(pending[nonce].address);
      pending := pending - {nonce};
    }
  }
}
