/** The window limiters told without their tables, by the times of the requests. */
module LimitExact {
  import opened Common
  import opened Limiter

  // ---------------------------------------------------------------- windows

  /** When the latest window of a key was opened: by a request that came after the one before it was over. */
  function OpenedAt(limit: Limit, requests: seq<Request>, key: Key): Option<Time>
    decreases |requests|
  {
    if requests == [] then None
    else
      var earlier, r := OpenedAt(limit, requests[..|requests| - 1], key), requests[|requests| - 1];
      if r.key == key && (earlier == None || r.now >= earlier.value + limit.window) then Some(r.now) else earlier
  }

  /** How many requests of a key came since then, the one that opened it included. */
  function SinceOpened(limit: Limit, requests: seq<Request>, key: Key): nat
    decreases |requests|
  {
    if requests == [] then 0
    else
      var n := |requests| - 1;
      var earlier := SinceOpened(limit, requests[..n], key);
      if requests[n].key != key then earlier
      else if OpenedAt(limit, requests[..n], key) == None
              || requests[n].now >= OpenedAt(limit, requests[..n], key).value + limit.window then 1
      else earlier + 1
  }

  /** A request passes with fewer than `max` before it in the window that is open, or as the first of a new one. */
  predicate HasRoom(limit: Limit, requests: seq<Request>, key: Key, now: Time) {
    var start := OpenedAt(limit, requests, key);
    if start.Some? && now < start.value + limit.window then SinceOpened(limit, requests, key) < limit.max
    else limit.max >= 1
  }

  lemma {:induction false} TableIs(limit: Limit, requests: seq<Request>, key: Key)
    requires forall i :: 0 <= i < |requests| ==> !requests[i].purge
    ensures var t, start := Run(map[], limit, requests), OpenedAt(limit, requests, key);
            && (key in t <==> start.Some?)
            && (key in t ==> t[key] == Entry(SinceOpened(limit, requests, key), start.value + limit.window))
    decreases |requests|
  {
    if requests != [] {
      TableIs(limit, requests[..|requests| - 1], key);
    }
  }

  lemma {:induction false} WithoutPurges(limit: Limit, requests: seq<Request>, key: Key)
    ensures OpenedAt(limit, Unpurged(requests), key) == OpenedAt(limit, requests, key)
    ensures SinceOpened(limit, Unpurged(requests), key) == SinceOpened(limit, requests, key)
    decreases |requests|
  {
    if requests != [] {
      var n := |requests| - 1;
      assert Unpurged(requests)[..n] == Unpurged(requests[..n]);
      WithoutPurges(limit, requests[..n], key);
    }
  }

  /** Under a clock that does not go back a limiter decides by the times of the requests alone, however it purges. */
  lemma PassesByTimes(limit: Limit, requests: seq<Request>, key: Key, now: Time)
    requires Clocked(requests) && NotBefore(requests, now)
    ensures Passes(Run(map[], limit, requests), limit, key, now) <==> HasRoom(limit, requests, key, now)
  {
    var plain := Unpurged(requests);
    TableIs(limit, plain, key);
    WithoutPurges(limit, requests, key);
    RunsAgree(map[], limit, requests, plain, now);
    AgreeStep(Run(map[], limit, requests), Run(map[], limit, plain), limit, key, now, false, false);
  }

  /** A purge removes exactly the entries whose window is over. */
  lemma PurgedExactly(t: Table, now: Time, key: Key)
    ensures key in Purged(t, now) <==> key in t && now < t[key].resetAt
    ensures key in Purged(t, now) ==> Purged(t, now)[key] == t[key]
  {}

  /** A request is entered for its key alone, and the purge comes behind it. */
  lemma StepExactly(t: Table, limit: Limit, r: Request)
    ensures Step(t, limit, r.(purge := false)) - {r.key} == t - {r.key}
    ensures Step(t, limit, r.(purge := true)) == Purged(Step(t, limit, r.(purge := false)), r.now)
  {}
}
