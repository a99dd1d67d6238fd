/** Exponential back-off after failed logins. Times are milliseconds. */
module AuthBackoff {
  import opened Common

  type User = nat
  type Time = nat

  /** The configuration; its ranges are those the environment values are checked against. */
  datatype Config = Config(free: nat, base: nat, max: nat, reset: nat)

  predicate ConfigOk(c: Config) {
    c.free <= 20 && 50 <= c.base <= 60 * 1000 && c.base <= c.max <= 15 * 60 * 1000 && c.max <= c.reset
  }

  datatype Entry = Entry(failures: nat, lastFailureAt: Time, blockedUntil: Time)

  type Table = map<User, Entry>

  function Pow2(n: nat): (p: nat)
    ensures p >= 1
  {
    if n == 0 then 1 else 2 * Pow2(n - 1)
  }

  function Delay(c: Config, failures: nat): nat {
    if failures <= c.free then 0
    else
      var delay := c.base * Pow2(failures - c.free - 1);
      if delay < c.max then delay else c.max
  }

  predicate Stale(c: Config, e: Entry, now: Time) {
    e.lastFailureAt + c.reset <= now
  }

  predicate Fresh(c: Config, t: Table, user: User, now: Time) {
    user in t && !Stale(c, t[user], now)
  }

  function Failures(c: Config, t: Table, user: User, now: Time): nat {
    if Fresh(c, t, user, now) then t[user].failures + 1 else 1
  }

  /** `recordAuthFailure`, before its purge. */
  function Recorded(c: Config, t: Table, user: User, now: Time): Table {
    var failures := Failures(c, t, user, now);
    t[user := Entry(failures, now, now + Delay(c, failures))]
  }

  function Purged(c: Config, t: Table, now: Time): Table {
    map user | user in t && !Stale(c, t[user], now) :: t[user]
  }

  /** Math.max(1, Math.ceil(ms / 1000)) */
  function Seconds(ms: nat): nat {
    var up := (ms + 999) / 1000;
    if up < 1 then 1 else up
  }

  /** `getAuthBackoff`: how many seconds a login has to wait. */
  function Backoff(c: Config, t: Table, user: User, now: Time): Option<nat> {
    if !Fresh(c, t, user, now) || t[user].blockedUntil <= now then None
    else Some(Seconds(t[user].blockedUntil - now))
  }

  datatype Op =
    | AskOp(user: User, now: Time)
    | FailOp(user: User, now: Time, purge: bool)
    | ClearOp(user: User, now: Time)

  function Step(c: Config, t: Table, op: Op): Table {
    match op
    case AskOp(user, now) => if user in t && Stale(c, t[user], now) then t - {user} else t
    case FailOp(user, now, purge) =>
      var t' := Recorded(c, t, user, now);
      if purge then Purged(c, t', now) else t'
    case ClearOp(user, _) => t - {user}
  }

  function Run(c: Config, t: Table, ops: seq<Op>): Table
    decreases |ops|
  {
    if ops == [] then t else Step(c, Run(c, t, ops[..|ops| - 1]), ops[|ops| - 1])
  }

  ghost predicate Clocked(ops: seq<Op>) {
    forall i, j :: 0 <= i < j < |ops| ==> ops[i].now <= ops[j].now
  }

  ghost predicate NotBefore(ops: seq<Op>, now: Time) {
    forall i :: 0 <= i < |ops| ==> ops[i].now <= now
  }

  // ---------------------------------------------------------------- delays

  lemma {:induction false} Pow2Monotone(a: nat, b: nat)
    requires a <= b
    ensures Pow2(a) <= Pow2(b)
    decreases b
  {
    if a < b {
      Pow2Monotone(a, b - 1);
    }
  }

  lemma Doubled(factor: nat, n: nat)
    ensures factor * Pow2(n + 1) == 2 * (factor * Pow2(n))
  {
    assert Pow2(n + 1) == 2 * Pow2(n);
  }

  /** More failures never wait less; the wait starts behind the free failures, doubles and stays within the maximum. */
  lemma DelaysGrow(c: Config, a: nat, b: nat)
    requires ConfigOk(c) && a <= b
    ensures Delay(c, a) <= Delay(c, b) <= c.max
    ensures Delay(c, a) == 0 <==> a <= c.free
    ensures a > c.free ==> Delay(c, a + 1) == (if 2 * Delay(c, a) < c.max then 2 * Delay(c, a) else c.max)
  {
    if a > c.free {
      Pow2Monotone(a - c.free - 1, b - c.free - 1);
      ProductMonotone(c.base, Pow2(a - c.free - 1), Pow2(b - c.free - 1));
      ProductMonotone(c.base, 1, Pow2(a - c.free - 1));
      Doubled(c.base, a - c.free - 1);
    }
  }

  // ---------------------------------------------------------------- entries

  ghost predicate EntryOk(c: Config, e: Entry) {
    e.failures >= 1 && e.blockedUntil == e.lastFailureAt + Delay(c, e.failures)
  }

  ghost predicate Inv(c: Config, t: Table) {
    forall user :: user in t ==> EntryOk(c, t[user])
  }

  lemma {:induction false} RunKeepsInv(c: Config, ops: seq<Op>)
    ensures Inv(c, Run(c, map[], ops))
    decreases |ops|
  {
    if ops != [] {
      RunKeepsInv(c, ops[..|ops| - 1]);
    }
  }

  /** An entry that may be dropped blocks nobody any more. */
  lemma DroppedAfterItsBlock(c: Config, ops: seq<Op>, user: User, now: Time)
    requires ConfigOk(c)
    ensures var t := Run(c, map[], ops);
            user in t && Stale(c, t[user], now) ==> t[user].blockedUntil <= now
  {
    RunKeepsInv(c, ops);
    var t := Run(c, map[], ops);
    if user in t {
      DelaysGrow(c, t[user].failures, t[user].failures);
    }
  }

  /** Whoever waits as long as told is let through, and one second less would not be enough. */
  lemma WaitIsEnough(c: Config, t: Table, user: User, now: Time)
    requires Backoff(c, t, user, now).Some?
    ensures var wait := Backoff(c, t, user, now).value;
            && Backoff(c, t, user, now + wait * 1000) == None
            && (wait - 1) * 1000 < t[user].blockedUntil - now <= wait * 1000
  {}

  // ---------------------------------------------------------------- purging cannot be seen

  ghost predicate Agree(c: Config, a: Table, b: Table, now: Time) {
    forall user :: (Fresh(c, a, user, now) <==> Fresh(c, b, user, now)) && (Fresh(c, a, user, now) ==> a[user] == b[user])
  }

  lemma AgreeLater(c: Config, a: Table, b: Table, now: Time, later: Time)
    requires Agree(c, a, b, now) && now <= later
    ensures Agree(c, a, b, later)
  {
    forall user
      ensures (Fresh(c, a, user, later) <==> Fresh(c, b, user, later)) && (Fresh(c, a, user, later) ==> a[user] == b[user])
    {
      assert Fresh(c, a, user, now) <==> Fresh(c, b, user, now);
    }
  }

  predicate SameOp(x: Op, y: Op) {
    x == y || (x.FailOp? && y.FailOp? && x.user == y.user && x.now == y.now)
  }

  ghost predicate SameOps(a: seq<Op>, b: seq<Op>) {
    |a| == |b| && forall i :: 0 <= i < |a| ==> SameOp(a[i], b[i])
  }

  lemma AgreeStep(c: Config, a: Table, b: Table, x: Op, y: Op)
    requires ConfigOk(c) && SameOp(x, y) && Agree(c, a, b, x.now)
    ensures Agree(c, Step(c, a, x), Step(c, b, y), x.now)
  {
    assert Fresh(c, a, x.user, x.now) <==> Fresh(c, b, x.user, x.now);
    var a', b' := Step(c, a, x), Step(c, b, y);
    forall user
      ensures (Fresh(c, a', user, x.now) <==> Fresh(c, b', user, x.now)) && (Fresh(c, a', user, x.now) ==> a'[user] == b'[user])
    {
      assert Fresh(c, a, user, x.now) <==> Fresh(c, b, user, x.now);
    }
  }

  lemma {:induction false} RunsAgree(c: Config, t: Table, a: seq<Op>, b: seq<Op>, now: Time)
    requires ConfigOk(c) && SameOps(a, b) && Clocked(a) && NotBefore(a, now)
    ensures Agree(c, Run(c, t, a), Run(c, t, b), now)
    decreases |a|
  {
    if a != [] {
      var n := |a| - 1;
      RunsAgree(c, t, a[..n], b[..n], a[n].now);
      AgreeStep(c, Run(c, t, a[..n]), Run(c, t, b[..n]), a[n], b[n]);
      AgreeLater(c, Run(c, t, a), Run(c, t, b), a[n].now, now);
    }
  }

  /** Whenever stale entries are purged, every wait and every new delay is what it would be without purging. */
  lemma PurgingIsUnobservable(c: Config, t: Table, a: seq<Op>, b: seq<Op>, user: User, now: Time)
    requires ConfigOk(c) && SameOps(a, b) && Clocked(a) && NotBefore(a, now)
    ensures Backoff(c, Run(c, t, a), user, now) == Backoff(c, Run(c, t, b), user, now)
    ensures Failures(c, Run(c, t, a), user, now) == Failures(c, Run(c, t, b), user, now)
  {
    RunsAgree(c, t, a, b, now);
    assert Fresh(c, Run(c, t, a), user, now) <==> Fresh(c, Run(c, t, b), user, now);
  }

  // ---------------------------------------------------------------- a row of failures

  predicate Fails(op: Op, user: User) {
    op.FailOp? && op.user == user
  }

  function CountFailures(ops: seq<Op>, user: User): nat
    decreases |ops|
  {
    if ops == [] then 0
    else CountFailures(ops[..|ops| - 1], user) + (if Fails(ops[|ops| - 1], user) then 1 else 0)
  }

  /** When a user last failed, 0 if never. */
  function LastFailure(ops: seq<Op>, user: User): Time
    decreases |ops|
  {
    if ops == [] then 0
    else if Fails(ops[|ops| - 1], user) then ops[|ops| - 1].now
    else LastFailure(ops[..|ops| - 1], user)
  }

  /**
   A row that begins with a failure of the user, whose failures are not forgiven, and in which
   nothing happens as late as a reset period after the user's last failure.
   */
  ghost predicate Row(c: Config, ops: seq<Op>, user: User)
    decreases |ops|
  {
    if |ops| <= 1 then ops != [] && Fails(ops[0], user)
    else
      var earlier, last := ops[..|ops| - 1], ops[|ops| - 1];
      && Row(c, earlier, user)
      && !(last.ClearOp? && last.user == user)
      && last.now < LastFailure(earlier, user) + c.reset
  }

  /** Every failure of a row counts, whatever other users do and whenever the table is purged. */
  lemma {:induction false} RowCounts(c: Config, t: Table, ops: seq<Op>, user: User)
    requires ConfigOk(c) && Row(c, ops, user) && !Fresh(c, t, user, ops[0].now)
    ensures var t' := Run(c, t, ops);
            && user in t' && t'[user].failures == CountFailures(ops, user)
            && t'[user].lastFailureAt == LastFailure(ops, user)
            && t'[user].blockedUntil == LastFailure(ops, user) + Delay(c, CountFailures(ops, user))
    decreases |ops|
  {
    if |ops| == 1 {
      assert ops[..0] == [];
      assert CountFailures([], user) == 0 && Run(c, t, []) == t;
    } else {
      RowCounts(c, t, ops[..|ops| - 1], user);
    }
  }

  // ---------------------------------------------------------------- the table as the server keeps it

  class Failed {
    const config: Config
    var entries: Table

    constructor (config: Config)
      ensures entries == map[] && this.config == config
    {
      this.config, entries := config, map[];
    }

    method GetAuthBackoff(user: User, now: Time) returns (wait: Option<nat>)
      modifies this
      ensures wait == Backoff(config, old(entries), user, now)
      ensures entries == Step(config, old(entries), AskOp(user, now))
    {
      if user !in entries {
        return None;
      }
      var entry := entries[user];
      if entry.lastFailureAt + config.reset <= now {
        entries := entries - {user};
        return None;
      }
      if entry.blockedUntil <= now {
        return None;
      }
      return Some(Seconds(entry.blockedUntil - now));
    }

    method Purge(now: Time)
      modifies this
      ensures entries == Purged(config, old(entries), now)
    {
      var rest := entries.Keys;
      while rest != {}
        invariant rest <= old(entries).Keys
        invariant entries == map user | user in old(entries) && (user in rest || !Stale(config, old(entries)[user], now))
                               :: old(entries)[user]
        decreases rest
      {
        var user :| user in rest;
        if entries[user].lastFailureAt + config.reset <= now {
          entries := entries - {user};
        }
        rest := rest - {user};
      }
    }

    method RecordAuthFailure(user: User, now: Time) returns (wait: Option<nat>, ghost purged: bool)
      modifies this
      ensures entries == Step(config, old(entries), FailOp(user, now, purged))
      ensures var delay := Delay(config, Failures(config, old(entries), user, now));
              wait == if delay > 0 then Some(Seconds(delay)) else None
    {
      var failures := 1;
      if user in entries && entries[user].lastFailureAt + config.reset > now {
        failures := entries[user].failures + 1;
      }
      var delay := Delay(config, failures);
      entries := entries[user := Entry(failures, now, now + delay)];
      purged := false;
      if |entries| > 10000 {
        Purge(now);
        purged := true;
      }
      wait := if delay > 0 then Some(Seconds(delay)) else None;
    }

    method ClearAuthFailures(user: User)
      modifies this
      ensures forall now :: entries == Step(config, old(entries), ClearOp(user, now))
    {
      entries := entries - {user};
    }
  }
}
