/** Ordered requirements: a request is answered with the error of the first that it does not meet. */
module Checks {
  import opened Common

  /** One requirement, and the answer when it is the first that is not met. */
  datatype Check<+E> = Check(met: bool, error: E)

  predicate FirstUnmet<E>(checks: seq<Check<E>>, k: nat) {
    k < |checks| && !checks[k].met && forall j :: 0 <= j < k ==> checks[j].met
  }

  /** The answer is the one of the first requirement that is not met; there is none when all are met. */
  ghost predicate Answers<E>(checks: seq<Check<E>>, answer: Option<E>) {
    match answer
    case None => forall k :: 0 <= k < |checks| ==> checks[k].met
    case Some(e) => exists k: nat :: FirstUnmet(checks, k) && checks[k].error == e
  }

  /** There is only one such answer. */
  lemma OneAnswer<E>(checks: seq<Check<E>>, a: Option<E>, b: Option<E>)
    requires Answers(checks, a) && Answers(checks, b)
    ensures a == b
  {
    if a.Some? && b.Some? {
      var j: nat :| FirstUnmet(checks, j) && checks[j].error == a.value;
      var k: nat :| FirstUnmet(checks, k) && checks[k].error == b.value;
    }
  }

  /** Requirements in two parts: the second counts when the first is met. */
  lemma InTwoParts<E>(a: seq<Check<E>>, b: seq<Check<E>>, first: Option<E>, answer: Option<E>)
    requires Answers(a, first)
    requires if first.Some? then answer == first else Answers(b, answer)
    ensures Answers(a + b, answer)
  {
    if first.Some? {
      var k: nat :| FirstUnmet(a, k) && a[k].error == first.value;
      assert FirstUnmet(a + b, k);
    } else if answer.Some? {
      var k: nat :| FirstUnmet(b, k) && b[k].error == answer.value;
      assert (a + b)[|a| + k] == b[k];
      assert FirstUnmet(a + b, |a| + k);
    }
  }

  lemma InOrder2<E>(a: Check<E>, b: Check<E>, answer: Option<E>)
    requires answer == if !a.met then Some(a.error)
                       else if !b.met then Some(b.error)
                       else None
    ensures Answers([a, b], answer)
  {
    var checks := [a, b];
    if !a.met {
      assert FirstUnmet(checks, 0);
    } else if !b.met {
      assert FirstUnmet(checks, 1);
    }
  }

  lemma InOrder3<E>(a: Check<E>, b: Check<E>, c: Check<E>, answer: Option<E>)
    requires answer == if !a.met then Some(a.error)
                       else if !b.met then Some(b.error)
                       else if !c.met then Some(c.error)
                       else None
    ensures Answers([a, b, c], answer)
  {
    var checks := [a, b, c];
    if !a.met {
      assert FirstUnmet(checks, 0);
    } else if !b.met {
      assert FirstUnmet(checks, 1);
    } else if !c.met {
      assert FirstUnmet(checks, 2);
    }
  }

  lemma InOrder4<E>(a: Check<E>, b: Check<E>, c: Check<E>, d: Check<E>, answer: Option<E>)
    requires answer == if !a.met then Some(a.error)
                       else if !b.met then Some(b.error)
                       else if !c.met then Some(c.error)
                       else if !d.met then Some(d.error)
                       else None
    ensures Answers([a, b, c, d], answer)
  {
    var checks := [a, b, c, d];
    if !a.met {
      assert FirstUnmet(checks, 0);
    } else if !b.met {
      assert FirstUnmet(checks, 1);
    } else if !c.met {
      assert FirstUnmet(checks, 2);
    } else if !d.met {
      assert FirstUnmet(checks, 3);
    }
  }

  lemma InOrder5<E>(a: Check<E>, b: Check<E>, c: Check<E>, d: Check<E>, e: Check<E>, answer: Option<E>)
    requires answer == if !a.met then Some(a.error)
                       else if !b.met then Some(b.error)
                       else if !c.met then Some(c.error)
                       else if !d.met then Some(d.error)
                       else if !e.met then Some(e.error)
                       else None
    ensures Answers([a, b, c, d, e], answer)
  {
    var checks := [a, b, c, d, e];
    if !a.met {
      assert FirstUnmet(checks, 0);
    } else if !b.met {
      assert FirstUnmet(checks, 1);
    } else if !c.met {
      assert FirstUnmet(checks, 2);
    } else if !d.met {
      assert FirstUnmet(checks, 3);
    } else if !e.met {
      assert FirstUnmet(checks, 4);
    }
  }
}
