/** Small vocabulary shared by the other modules. */
module Common {
  datatype Option<+T> = None | Some(value: T)

  /** The elements of a sequence. */
  function Elements<T>(s: seq<T>): set<T> {
    set x | x in s
  }

  /** The beginning of a run up to j, cut behind its i-th element. */
  lemma Pieces<T>(s: seq<T>, i: nat, j: nat)
    requires i < j <= |s|
    ensures s[..j] == s[..i + 1] + s[i + 1..j]
    ensures |s[..i + 1]| == i + 1 && s[..i + 1][..i] == s[..i] && s[..i + 1][i] == s[i]
  {}

  lemma Associative<T>(x: seq<T>, y: seq<T>, z: seq<T>)
    ensures (x + y) + z == x + (y + z)
  {}

  lemma ProductMonotone(factor: nat, a: nat, b: nat)
    requires a <= b
    ensures factor * a <= factor * b
  {}

  lemma {:induction false} SubsetCount<T>(a: set<T>, b: set<T>)
    requires a <= b
    ensures |a| <= |b|
    ensures |a| == |b| ==> a == b
  {
    if a != {} {
      var x :| x in a;
      SubsetCount(a - {x}, b - {x});
      assert a == (a - {x}) + {x} && b == (b - {x}) + {x};
    }
  }

  /** A strictly increasing list of numbers, the shape of an ORDER BY over a key. */
  ghost predicate Ascending(s: seq<nat>) {
    forall i, j :: 0 <= i < j < |s| ==> s[i] < s[j]
  }

  lemma HeadIsLeast(s: seq<nat>, t: seq<nat>)
    requires Ascending(s) && Ascending(t) && s != [] && Elements(s) == Elements(t)
    ensures t != [] && s[0] == t[0]
  {
    assert s[0] in Elements(t);
    var i :| 0 <= i < |t| && t[i] == s[0];
    assert t[0] in Elements(s);
    var j :| 0 <= j < |s| && s[j] == t[0];
  }

  lemma TailElements(s: seq<nat>)
    requires Ascending(s) && s != []
    ensures Ascending(s[1..]) && Elements(s[1..]) == Elements(s) - {s[0]}
  {
    forall x | x in Elements(s) - {s[0]} ensures x in Elements(s[1..]) {
      var i :| 0 <= i < |s| && s[i] == x;
      assert s[1..][i - 1] == x;
    }
  }

  /** Two strictly increasing lists with the same elements are the same list. */
  lemma {:induction false} AscendingUnique(s: seq<nat>, t: seq<nat>)
    requires Ascending(s) && Ascending(t)
    requires Elements(s) == Elements(t)
    ensures s == t
  {
    if s != [] {
      HeadIsLeast(s, t);
      TailElements(s);
      TailElements(t);
      AscendingUnique(s[1..], t[1..]);
      assert s == [s[0]] + s[1..] && t == [t[0]] + t[1..];
    } else if t != [] {
      HeadIsLeast(t, s);
    }
  }

  lemma {:induction false} ElementsAtMost<T>(s: seq<T>)
    ensures |Elements(s)| <= |s|
  {
    if s != [] {
      var rest := s[..|s| - 1];
      ElementsAtMost(rest);
      assert Elements(s) == Elements(rest) + {s[|s| - 1]};
    }
  }

  /** `new Set(list).size === list.length` decides that a list has no repetitions. */
  lemma {:induction false} NoRepetition<T>(s: seq<T>, i: nat, j: nat)
    requires |Elements(s)| == |s| && i < j < |s|
    ensures s[i] != s[j]
  {
    var rest := s[..|s| - 1];
    ElementsAtMost(rest);
    assert Elements(s) == Elements(rest) + {s[|s| - 1]};
    if j == |s| - 1 {
      assert s[i] in Elements(rest);
    } else {
      assert |Elements(rest)| == |rest|;
      NoRepetition(rest, i, j);
    }
  }

  lemma {:induction false} OrderExists(ids: set<nat>)
    ensures exists s: seq<nat> :: Ascending(s) && Elements(s) == ids
  {
    if ids == {} {
      assert Ascending([]) && Elements<nat>([]) == ids;
    } else {
      var last := Greatest(ids);
      OrderExists(ids - {last});
      var s: seq<nat> :| Ascending(s) && Elements(s) == ids - {last};
      forall i | 0 <= i < |s| ensures s[i] < last {
        assert s[i] in Elements(s);
      }
      assert Elements(s + [last]) == Elements(s) + {last};
      assert Ascending(s + [last]);
    }
  }

  lemma {:induction false} Greatest(ids: set<nat>) returns (g: nat)
    requires ids != {}
    ensures g in ids && forall x :: x in ids ==> x <= g
  {
    var x :| x in ids;
    if ids == {x} {
      g := x;
    } else {
      assert ids - {x} != {} by {
        assert ids == (ids - {x}) + {x};
      }
      g := Greatest(ids - {x});
      if g < x {
        g := x;
      }
    }
  }

  /** The identifiers of a set in increasing order. */
  ghost function Ordered(ids: set<nat>): (s: seq<nat>)
    ensures Ascending(s) && Elements(s) == ids
  {
    OrderExists(ids);
    var s: seq<nat> :| Ascending(s) && Elements(s) == ids;
    s
  }

  /** Inserts a number into a strictly increasing list that does not hold it. */
  method InsertAscending(s: seq<nat>, x: nat) returns (r: seq<nat>)
    requires Ascending(s) && x !in s
    ensures Ascending(r) && Elements(r) == Elements(s) + {x}
    ensures |r| == |s| + 1
  {
    var i := 0;
    while i < |s| && s[i] < x
      invariant 0 <= i <= |s|
      invariant forall k :: 0 <= k < i ==> s[k] < x
    {
      i := i + 1;
    }
    r := s[..i] + [x] + s[i..];
    assert i < |s| ==> s[i] != x;
    assert forall k :: i <= k < |s| ==> x < s[k];
    assert r[i] == x;
    forall y | y in Elements(s) + {x} ensures y in r {
      if y != x {
        var k :| 0 <= k < |s| && s[k] == y;
        if k < i {
          assert r[k] == y;
        } else {
          assert r[k + 1] == y;
        }
      }
    }
  }

  /** Sorts a set of identifiers, as `ORDER BY id ASC` and `.sort()` do. */
  method SortIds(ids: set<nat>) returns (r: seq<nat>)
    ensures Ascending(r) && Elements(r) == ids
    ensures |r| == |ids|
  {
    r := [];
    var rest := ids;
    while rest != {}
      invariant rest <= ids
      invariant Ascending(r) && Elements(r) == ids - rest
      invariant |r| + |rest| == |ids|
      decreases rest
    {
      var x :| x in rest;
      assert x !in Elements(r);
      r := InsertAscending(r, x);
      rest := rest - {x};
    }
  }

  lemma {:induction false} LastTrue(u: seq<bool>, i: nat, j: nat) returns (k: nat)
    requires i <= j < |u| && u[i] && !u[j]
    ensures i <= k < j && u[k] && forall l :: k < l <= j ==> !u[l]
    decreases j
  {
    if u[j - 1] {
      k := j - 1;
    } else {
      k := LastTrue(u, i, j - 1);
    }
  }

  lemma {:induction false} StaysFalse(u: seq<bool>, i: nat, j: nat)
    requires i <= j < |u| && !u[i] && forall l :: i <= l < j && !u[l] ==> !u[l + 1]
    ensures !u[j]
    decreases j
  {
    if i < j {
      StaysFalse(u, i, j - 1);
    }
  }
}
