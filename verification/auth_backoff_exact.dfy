/** Back-off after failed logins, told from the failures of the user. */
module BackoffExact {
  import opened Common
  import opened AuthBackoff

  /** The first wait is the base, every further one is twice the one before, and none is above the maximum. */
  lemma FirstDelay(c: Config, failures: nat)
    requires ConfigOk(c)
    ensures failures <= c.free ==> Delay(c, failures) == 0
    ensures failures == c.free + 1 ==> Delay(c, failures) == c.base
    ensures failures > c.free + 1 && 2 * Delay(c, failures - 1) <= c.max ==>
              Delay(c, failures) == 2 * Delay(c, failures - 1)
    ensures failures > c.free + 1 && 2 * Delay(c, failures - 1) > c.max ==> Delay(c, failures) == c.max
  {
    if failures == c.free + 1 {
      assert Pow2(0) == 1;
    } else if failures > c.free + 1 {
      DelaysGrow(c, failures - 1, failures);
    }
  }

  /** The ranges of the four settings. */
  lemma ConfigMeans(c: Config)
    ensures ConfigOk(c) <==> c.free <= 20 && 50 <= c.base && c.base <= 60000 && c.base <= c.max && c.max <= 900000
                             && c.max <= c.reset
  {}

  /** A login waits exactly while it is blocked and its last failure is not a reset period old. */
  lemma BlockedExactly(c: Config, t: Table, user: User, now: Time)
    ensures Backoff(c, t, user, now).Some?
            <==> user in t && now < t[user].lastFailureAt + c.reset && now < t[user].blockedUntil
  {}

  /** Behind a pause of a reset period the count starts again; a failure blocks from its own time. */
  lemma FailedExactly(c: Config, t: Table, user: User, now: Time, purge: bool)
    requires ConfigOk(c)
    ensures var failures := if user in t && now < t[user].lastFailureAt + c.reset then t[user].failures + 1 else 1;
            var t' := Step(c, t, FailOp(user, now, false));
            && t' == t[user := Entry(failures, now, now + Delay(c, failures))]
            && Step(c, t, FailOp(user, now, true)) == Purged(c, t', now)
  {}

  /** A purge removes exactly what is a reset period old; asking removes only that of the user; success clears the user. */
  lemma RemovedExactly(c: Config, t: Table, user: User, other: User, now: Time)
    ensures other in Purged(c, t, now) <==> other in t && now < t[other].lastFailureAt + c.reset
    ensures other in Purged(c, t, now) ==> Purged(c, t, now)[other] == t[other]
    ensures Step(c, t, AskOp(user, now))
            == if user in t && now >= t[user].lastFailureAt + c.reset then t - {user} else t
    ensures Step(c, t, ClearOp(user, now)) == t - {user}
  {}
}
