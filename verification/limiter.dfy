/** The fixed-window rate limiters: one Map of counters, purged now and then. Times are milliseconds. */
module Limiter {
  import opened Common

  type Key = nat
  type Time = nat

  /** A window that began `window` before `resetAt` and has seen `count` requests. */
  datatype Entry = Entry(count: nat, resetAt: Time)

  type Table = map<Key, Entry>

  datatype Limit = Limit(window: nat, max: nat)

  predicate Live(t: Table, key: Key, now: Time) {
    key in t && t[key].resetAt > now
  }

  /** The entry a request is counted in. */
  function Counted(t: Table, limit: Limit, key: Key, now: Time): Entry {
    if Live(t, key, now) then t[key].(count := t[key].count + 1) else Entry(1, now + limit.window)
  }

  function After(t: Table, limit: Limit, key: Key, now: Time): Table {
    t[key := Counted(t, limit, key, now)]
  }

  predicate Passes(t: Table, limit: Limit, key: Key, now: Time) {
    Counted(t, limit, key, now).count <= limit.max
  }

  /** Drops the entries whose window is over. */
  function Purged(t: Table, now: Time): Table {
    map key | key in t && t[key].resetAt > now :: t[key]
  }

  /** A request, and whether the table is purged behind it; that depends on the table's size in each limiter. */
  datatype Request = Request(key: Key, now: Time, purge: bool)

  function Step(t: Table, limit: Limit, r: Request): Table {
    var t' := After(t, limit, r.key, r.now);
    if r.purge then Purged(t', r.now) else t'
  }

  function Run(t: Table, limit: Limit, requests: seq<Request>): Table
    decreases |requests|
  {
    if requests == [] then t
    else Step(Run(t, limit, requests[..|requests| - 1]), limit, requests[|requests| - 1])
  }

  ghost predicate Clocked(requests: seq<Request>) {
    forall i, j :: 0 <= i < j < |requests| ==> requests[i].now <= requests[j].now
  }

  ghost predicate NotBefore(requests: seq<Request>, now: Time) {
    forall i :: 0 <= i < |requests| ==> requests[i].now <= now
  }

  // ---------------------------------------------------------------- purging cannot be seen

  /** The same windows are open in both tables. */
  ghost predicate Agree(a: Table, b: Table, now: Time) {
    forall key :: (Live(a, key, now) <==> Live(b, key, now)) && (Live(a, key, now) ==> a[key] == b[key])
  }

  lemma AgreeLater(a: Table, b: Table, now: Time, later: Time)
    requires Agree(a, b, now) && now <= later
    ensures Agree(a, b, later)
  {
    forall key ensures (Live(a, key, later) <==> Live(b, key, later)) && (Live(a, key, later) ==> a[key] == b[key]) {
      assert Live(a, key, now) <==> Live(b, key, now);
    }
  }

  lemma AgreeStep(a: Table, b: Table, limit: Limit, key: Key, now: Time, purgeA: bool, purgeB: bool)
    requires Agree(a, b, now)
    ensures Passes(a, limit, key, now) == Passes(b, limit, key, now)
    ensures Agree(Step(a, limit, Request(key, now, purgeA)), Step(b, limit, Request(key, now, purgeB)), now)
  {
    assert Live(a, key, now) <==> Live(b, key, now);
    var a', b' := Step(a, limit, Request(key, now, purgeA)), Step(b, limit, Request(key, now, purgeB));
    forall k ensures (Live(a', k, now) <==> Live(b', k, now)) && (Live(a', k, now) ==> a'[k] == b'[k]) {
      assert Live(a, k, now) <==> Live(b, k, now);
    }
  }

  /** The same requests at the same times. */
  ghost predicate SameRequests(a: seq<Request>, b: seq<Request>) {
    |a| == |b| && forall i :: 0 <= i < |a| ==> a[i].key == b[i].key && a[i].now == b[i].now
  }

  lemma {:induction false} RunsAgree(t: Table, limit: Limit, a: seq<Request>, b: seq<Request>, now: Time)
    requires SameRequests(a, b) && Clocked(a) && NotBefore(a, now)
    ensures Agree(Run(t, limit, a), Run(t, limit, b), now)
    decreases |a|
  {
    if a != [] {
      var n := |a| - 1;
      RunsAgree(t, limit, a[..n], b[..n], a[n].now);
      AgreeStep(Run(t, limit, a[..n]), Run(t, limit, b[..n]), limit, a[n].key, a[n].now, a[n].purge, b[n].purge);
      assert Request(b[n].key, b[n].now, b[n].purge) == b[n] && Request(a[n].key, a[n].now, a[n].purge) == a[n];
      AgreeLater(Run(t, limit, a), Run(t, limit, b), a[n].now, now);
    }
  }

  /** Whenever the table is purged, every decision is what it would be with another purging or with none. */
  lemma PurgingIsUnobservable(t: Table, limit: Limit, a: seq<Request>, b: seq<Request>, i: nat)
    requires SameRequests(a, b) && Clocked(a) && i < |a|
    ensures Passes(Run(t, limit, a[..i]), limit, a[i].key, a[i].now)
            == Passes(Run(t, limit, b[..i]), limit, b[i].key, b[i].now)
  {
    RunsAgree(t, limit, a[..i], b[..i], a[i].now);
    AgreeStep(Run(t, limit, a[..i]), Run(t, limit, b[..i]), limit, a[i].key, a[i].now, false, false);
  }

  // ---------------------------------------------------------------- how many pass

  /** The requests of a key that pass in a half-open interval. */
  function Passed(t: Table, limit: Limit, requests: seq<Request>, key: Key, from: Time, to: Time): nat
    decreases |requests|
  {
    if requests == [] then 0
    else
      var earlier, r := requests[..|requests| - 1], requests[|requests| - 1];
      Passed(t, limit, earlier, key, from, to)
      + (if r.key == key && from <= r.now < to && Passes(Run(t, limit, earlier), limit, key, r.now) then 1 else 0)
  }

  /** The requests without their purges. */
  function Unpurged(requests: seq<Request>): (r: seq<Request>)
    ensures |r| == |requests|
    ensures forall i :: 0 <= i < |r| ==> r[i] == requests[i].(purge := false)
  {
    seq(|requests|, i requires 0 <= i < |requests| => requests[i].(purge := false))
  }

  lemma {:induction false} PassedUnpurged(t: Table, limit: Limit, requests: seq<Request>, key: Key, from: Time, to: Time)
    requires Clocked(requests)
    ensures Passed(t, limit, requests, key, from, to) == Passed(t, limit, Unpurged(requests), key, from, to)
    decreases |requests|
  {
    if requests != [] {
      var n := |requests| - 1;
      PassedUnpurged(t, limit, requests[..n], key, from, to);
      assert Unpurged(requests)[..n] == Unpurged(requests[..n]);
      PurgingIsUnobservable(t, limit, requests, Unpurged(requests), n);
    }
  }

  function Least(a: nat, b: nat): nat {
    if a <= b then a else b
  }

  /**
   What the entry of a key says about the passes in [from, from + window): none without an entry; in
   a window that began before the interval its first request is not counted; in a window that began
   inside, the passes of one earlier window come on top.
   */
  ghost predicate Bounded(t: Table, limit: Limit, key: Key, from: Time, passed: nat) {
    && passed <= 2 * limit.max - 1
    && (key !in t ==> passed == 0)
    && (key in t ==>
          && t[key].count >= 1 && t[key].resetAt >= limit.window
          && (t[key].resetAt < from + limit.window ==> passed <= Least(t[key].count, limit.max) - 1)
          && (from + limit.window <= t[key].resetAt < from + 2 * limit.window ==>
                passed <= limit.max - 1 + Least(t[key].count, limit.max)))
  }

  lemma {:induction false} NonePassedEarly(t: Table, limit: Limit, requests: seq<Request>, key: Key, from: Time, to: Time)
    requires forall i :: 0 <= i < |requests| ==> requests[i].now < from
    ensures Passed(t, limit, requests, key, from, to) == 0
    decreases |requests|
  {
    if requests != [] {
      NonePassedEarly(t, limit, requests[..|requests| - 1], key, from, to);
    }
  }

  lemma {:induction false} ResetWithin(limit: Limit, requests: seq<Request>, key: Key, now: Time)
    requires NotBefore(requests, now) && key in Run(map[], limit, requests)
    ensures Run(map[], limit, requests)[key].resetAt <= now + limit.window
    decreases |requests|
  {
    if requests != [] && key in Run(map[], limit, requests[..|requests| - 1]) {
      ResetWithin(limit, requests[..|requests| - 1], key, now);
    }
  }

  lemma BoundedStep(t: Table, limit: Limit, key: Key, from: Time, passed: nat, r: Request)
    requires limit.max >= 1 && limit.window >= 1 && !r.purge && Bounded(t, limit, key, from, passed)
    requires r.now < from ==> passed == 0
    requires key in t ==> t[key].resetAt <= r.now + limit.window
    ensures var more := r.key == key && from <= r.now < from + limit.window && Passes(t, limit, key, r.now);
            Bounded(Step(t, limit, r), limit, key, from, passed + (if more then 1 else 0))
  {}

  lemma {:induction false} UnpurgedBounded(limit: Limit, requests: seq<Request>, key: Key, from: Time)
    requires limit.max >= 1 && limit.window >= 1 && Clocked(requests)
    requires forall i :: 0 <= i < |requests| ==> !requests[i].purge
    ensures Bounded(Run(map[], limit, requests), limit, key, from,
                    Passed(map[], limit, requests, key, from, from + limit.window))
    decreases |requests|
  {
    if requests != [] {
      var earlier, r := requests[..|requests| - 1], requests[|requests| - 1];
      UnpurgedBounded(limit, earlier, key, from);
      if r.now < from {
        NonePassedEarly(map[], limit, earlier, key, from, from + limit.window);
      }
      if key in Run(map[], limit, earlier) {
        ResetWithin(limit, earlier, key, r.now);
      }
      BoundedStep(Run(map[], limit, earlier), limit, key, from,
                  Passed(map[], limit, earlier, key, from, from + limit.window), r);
    }
  }

  /**
   In any half-open interval as long as the window at most 2 * max - 1 requests of a key pass,
   for any purging.
   */
  lemma SlidingBound(limit: Limit, requests: seq<Request>, key: Key, from: Time)
    requires limit.max >= 1 && limit.window >= 1 && Clocked(requests)
    ensures Passed(map[], limit, requests, key, from, from + limit.window) <= 2 * limit.max - 1
  {
    PassedUnpurged(map[], limit, requests, key, from, from + limit.window);
    UnpurgedBounded(limit, Unpurged(requests), key, from);
  }

  /** The bound is reached: with a limit of two in ten, requests at 0, 9, 10 and 11 all pass, three of them in [9, 19). */
  lemma SlidingBoundIsReached()
    ensures var requests := [Request(7, 0, false), Request(7, 9, false), Request(7, 10, false), Request(7, 11, false)];
            Clocked(requests) && Passed(map[], Limit(10, 2), requests, 7, 9, 19) == 3
  {
    var limit := Limit(10, 2);
    var r0, r1, r2, r3 := Request(7, 0, false), Request(7, 9, false), Request(7, 10, false), Request(7, 11, false);
    var requests := [r0, r1, r2, r3];
    assert requests[..3] == [r0, r1, r2] && requests[..3][..2] == [r0, r1] && requests[..3][..2][..1] == [r0];
    assert [r0, r1, r2][..2] == [r0, r1] && [r0, r1][..1] == [r0] && [r0][..0] == [];
    assert Run(map[], limit, [r0]) == map[7 := Entry(1, 10)];
    assert Run(map[], limit, [r0, r1]) == map[7 := Entry(2, 10)];
    assert Run(map[], limit, [r0, r1, r2]) == map[7 := Entry(1, 20)];
    assert Passed(map[], limit, [r0], 7, 9, 19) == 0;
    assert Passed(map[], limit, [r0, r1], 7, 9, 19) == 1;
    assert Passed(map[], limit, [r0, r1, r2], 7, 9, 19) == 2;
  }

  /** While a window is open, what passes and what was counted together stay within the limit. */
  lemma {:induction false} OneWindow(t: Table, limit: Limit, requests: seq<Request>, key: Key)
    requires key in t && t[key].resetAt >= 1 && NotBefore(requests, t[key].resetAt - 1)
    ensures Live(Run(t, limit, requests), key, t[key].resetAt - 1)
    ensures Run(t, limit, requests)[key].resetAt == t[key].resetAt
    ensures Passed(t, limit, requests, key, 0, t[key].resetAt) + Least(t[key].count, limit.max)
            == Least(Run(t, limit, requests)[key].count, limit.max)
    decreases |requests|
  {
    if requests != [] {
      OneWindow(t, limit, requests[..|requests| - 1], key);
    }
  }

  // ---------------------------------------------------------------- the limiter object

  /** When a limiter purges: the three in server.js and the one in lan-discovery-relay.js differ. */
  datatype Policy = Policy(onPass: bool, size: nat)

  class RateLimiter {
    const limit: Limit
    const policy: Policy
    var attempts: Table

    constructor (limit: Limit, policy: Policy)
      ensures attempts == map[] && this.limit == limit && this.policy == policy
    {
      this.limit, this.policy, attempts := limit, policy, map[];
    }

    method Purge(now: Time)
      modifies this
      ensures attempts == Purged(old(attempts), now)
    {
      var rest := attempts.Keys;
      while rest != {}
        invariant rest <= old(attempts).Keys
        invariant attempts == map key | key in old(attempts) && (key in rest || old(attempts)[key].resetAt > now)
                                :: old(attempts)[key]
        decreases rest
      {
        var key :| key in rest;
        if attempts[key].resetAt <= now {
          attempts := attempts - {key};
        }
        rest := rest - {key};
      }
    }

    /** Counts a request and decides; the purge happens on the paths where the source has it. */
    method Allow(key: Key, now: Time) returns (allowed: bool, ghost purged: bool)
      modifies this
      ensures allowed == Passes(old(attempts), limit, key, now)
      ensures attempts == Step(old(attempts), limit, Request(key, now, purged))
    {
      var entry := if key !in attempts || attempts[key].resetAt <= now then Entry(0, now + limit.window) else attempts[key];
      entry := entry.(count := entry.count + 1);
      attempts := attempts[key := entry];
      allowed := entry.count <= limit.max;
      purged := false;
      if allowed == policy.onPass && |attempts| > policy.size {
        Purge(now);
        purged := true;
      }
    }
  }
}
