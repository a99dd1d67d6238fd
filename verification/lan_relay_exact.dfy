/** The LAN relay, told from the requests and answers of a run. */
module RelayExact {
  import opened Common
  import opened Limiter
  import opened LanRelay
  import LimitExact

  /** Sixty seconds with thirty requests. */
  function PerMinute(): Limit {
    Limit(60_000, 30)
  }

  /** A request is forwarded exactly when it is private, its nonce is not in the table and its address has room. */
  lemma ForwardedExactly(ops: seq<Op>, address: Address, isPrivate: bool, nonce: Nonce, now: Time)
    requires ClockedOps(ops) && forall i :: 0 <= i < |ops| ==> ops[i].now <= now
    ensures var s := LanRelay.Run(LanRelay.State(map[], map[]), ops);
            Forwards(s, address, isPrivate, nonce, now)
            <==> isPrivate && nonce !in s.pending && LimitExact.HasRoom(PerMinute(), LanRelay.Counted(ops), address, now)
  {
    CountedIsClocked(ops);
    RelayIsLimiter(ops, address, 0, 0);
    assert NotBefore(LanRelay.Counted(ops), now);
    LimitExact.PassesByTimes(PerMinute(), LanRelay.Counted(ops), address, now);
  }

  /** The nonce waits for the address until that time. */
  predicate Waits(s: LanRelay.State, nonce: Nonce, address: Address, until: Time) {
    nonce in s.pending && s.pending[nonce].address == address && s.pending[nonce].expiresAt == until
  }

  lemma ForwardWaits(s: LanRelay.State, address: Address, isPrivate: bool, nonce: Nonce, now: Time)
    requires Forwards(s, address, isPrivate, nonce, now)
    ensures Waits(Asked(s, address, isPrivate, nonce, now), nonce, address, now + 5000)
  {}

  /** Nothing but its answer, or the end of its time, ends the wait. */
  lemma WaitGoesOn(s: LanRelay.State, op: Op, nonce: Nonce, address: Address, until: Time)
    requires Waits(s, nonce, address, until) && op.now < until && !(op.Answer? && op.nonce == nonce)
    ensures Waits(LanRelay.Step(s, op), nonce, address, until)
  {}

  lemma {:induction false} WaitsThrough(
    s: LanRelay.State, ops: seq<Op>, nonce: Nonce, address: Address, until: Time)
    requires Waits(s, nonce, address, until)
    requires forall i :: 0 <= i < |ops| ==> ops[i].now < until && !(ops[i].Answer? && ops[i].nonce == nonce)
    ensures Waits(LanRelay.Run(s, ops), nonce, address, until)
    decreases |ops|
  {
    if ops != [] {
      WaitsThrough(s, ops[..|ops| - 1], nonce, address, until);
      WaitGoesOn(LanRelay.Run(s, ops[..|ops| - 1]), ops[|ops| - 1], nonce, address, until);
    }
  }

  /**
   The first answer to a forwarded request reaches its address when it comes within five seconds, whatever else is
   asked and answered in between; a second answer reaches nobody.
   */
  lemma AnswerArrives(
    s: LanRelay.State, address: Address, isPrivate: bool, nonce: Nonce, asked: Time, between: seq<Op>, now: Time)
    requires Forwards(s, address, isPrivate, nonce, asked) && now < asked + 5000
    requires forall i :: 0 <= i < |between| ==>
               between[i].now < asked + 5000 && !(between[i].Answer? && between[i].nonce == nonce)
    ensures var t := LanRelay.Run(Asked(s, address, isPrivate, nonce, asked), between);
            && Receiver(t, nonce, now) == Some(address)
            && Receiver(Answered(t, nonce, now), nonce, now) == None
            && Answered(t, nonce, now) == LanRelay.State(t.rates, t.pending - {nonce})
  {
    ForwardWaits(s, address, isPrivate, nonce, asked);
    WaitsThrough(Asked(s, address, isPrivate, nonce, asked), between, nonce, address, asked + 5000);
  }

  /** An answer to a nonce that is not waiting any more changes nothing. */
  lemma LateAnswer(s: LanRelay.State, nonce: Nonce, now: Time)
    ensures Receiver(s, nonce, now) == None <==> nonce !in s.pending || now >= s.pending[nonce].expiresAt
    ensures Receiver(s, nonce, now) == None ==> Answered(s, nonce, now) == s
  {}

  /**
   What a request changes: nothing when its nonce is in the table; else it is counted, waits when it is forwarded,
   and then a table of more than a thousand entries is purged of all that is over.
   */
  lemma AskedExactly(s: LanRelay.State, address: Address, isPrivate: bool, nonce: Nonce, now: Time)
    ensures var rates := Limiter.Step(s.rates, PerMinute(), Request(address, now, false));
            var pending := s.pending[nonce := Client(address, now + 5000)];
            Asked(s, address, isPrivate, nonce, now)
            == if !isPrivate || nonce in s.pending then s
               else if !Passes(s.rates, PerMinute(), address, now) then LanRelay.State(rates, s.pending)
               else if |pending| > 1000 || |rates| > 1000 then Purge(LanRelay.State(rates, pending), now)
               else LanRelay.State(rates, pending)
  {}

  lemma PurgedExactly(s: LanRelay.State, now: Time, nonce: Nonce, key: Key)
    ensures var t := Purge(s, now);
            && (nonce in t.pending <==> nonce in s.pending && now < s.pending[nonce].expiresAt)
            && (nonce in t.pending ==> t.pending[nonce] == s.pending[nonce])
            && (key in t.rates <==> key in s.rates && now < s.rates[key].resetAt)
            && (key in t.rates ==> t.rates[key] == s.rates[key])
  {}
}
