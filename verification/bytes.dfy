/** Byte strings, big-endian lengths and their lexicographic order. */
module Bytes {
  type byte = x: int | 0 <= x < 256
  type Bytes = seq<byte>

  const U32_LIMIT: nat := 0x1_0000_0000
  const U64_LIMIT: nat := 0x1_0000_0000_0000_0000

  function Zeros(n: nat): (b: Bytes)
    ensures |b| == n && forall i :: 0 <= i < n ==> b[i] == 0
  {
    seq(n, i => 0)
  }

  /** `(n as u32).to_be_bytes()` */
  function U32(n: nat): (b: Bytes)
    requires n < U32_LIMIT
    ensures |b| == 4
  {
    var high, low := n / 0x1_0000, n % 0x1_0000;
    [high / 256, high % 256, low / 256, low % 256]
  }

  function FromU32(b: Bytes): (n: nat)
    requires |b| == 4
    ensures n < U32_LIMIT
  {
    (b[0] as int * 256 + b[1]) * 0x1_0000 + (b[2] as int * 256 + b[3])
  }

  lemma U32RoundTrip(n: nat)
    requires n < U32_LIMIT
    ensures FromU32(U32(n)) == n
  {}

  /** `(n as u64).to_be_bytes()` */
  function U64(n: nat): (b: Bytes)
    requires n < U64_LIMIT
    ensures |b| == 8
  {
    U32(n / U32_LIMIT) + U32(n % U32_LIMIT)
  }

  function FromU64(b: Bytes): (n: nat)
    requires |b| == 8
    ensures n < U64_LIMIT
  {
    FromU32(b[..4]) * U32_LIMIT + FromU32(b[4..])
  }

  lemma U64RoundTrip(n: nat)
    requires n < U64_LIMIT
    ensures FromU64(U64(n)) == n
  {
    U32RoundTrip(n / U32_LIMIT);
    U32RoundTrip(n % U32_LIMIT);
    assert U64(n)[..4] == U32(n / U32_LIMIT) && U64(n)[4..] == U32(n % U32_LIMIT);
  }

  // ---------------------------------------------------------------- order

  /** The order of `Vec<u8>`: a proper prefix comes first, otherwise the first difference decides. */
  predicate Less(a: Bytes, b: Bytes) {
    if b == [] then false
    else if a == [] then true
    else a[0] < b[0] || (a[0] == b[0] && Less(a[1..], b[1..]))
  }

  lemma LessIrreflexive(a: Bytes)
    ensures !Less(a, a)
  {}

  lemma {:induction false} LessTotal(a: Bytes, b: Bytes)
    ensures Less(a, b) || Less(b, a) || a == b
  {
    if a != [] && b != [] && a[0] == b[0] {
      LessTotal(a[1..], b[1..]);
      assert a == [a[0]] + a[1..] && b == [b[0]] + b[1..];
    }
  }

  lemma {:induction false} LessTransitive(a: Bytes, b: Bytes, c: Bytes)
    requires Less(a, b) && Less(b, c)
    ensures Less(a, c)
  {
    if a != [] && a[0] == b[0] && b[0] == c[0] {
      LessTransitive(a[1..], b[1..], c[1..]);
    }
  }

  ghost predicate Sorted(s: seq<Bytes>) {
    forall i, j :: 0 <= i < j < |s| ==> Less(s[i], s[j])
  }

  /** A strictly sorted listing of a set of keys. */
  ghost predicate Lists(s: seq<Bytes>, keys: set<Bytes>) {
    Sorted(s) && (forall k :: k in keys <==> k in s)
  }

  lemma {:induction false} ListsCount(s: seq<Bytes>, keys: set<Bytes>)
    requires Lists(s, keys)
    ensures |s| == |keys|
  {
    if s == [] {
      assert keys == {};
    } else {
      var last := s[|s| - 1];
      var rest := s[..|s| - 1];
      forall k | k in rest ensures k != last {
        var i :| 0 <= i < |rest| && rest[i] == k;
        LessIrreflexive(last);
      }
      assert Lists(rest, keys - {last}) by {
        forall k | k in keys - {last} ensures k in rest {
          var i :| 0 <= i < |s| && s[i] == k;
          assert rest[i] == k;
        }
      }
      ListsCount(rest, keys - {last});
    }
  }

  lemma ListsHead(s: seq<Bytes>, t: seq<Bytes>, keys: set<Bytes>)
    requires Lists(s, keys) && Lists(t, keys) && s != [] && t != []
    ensures s[0] == t[0]
  {
    assert s[0] in t && t[0] in s;
    var i :| 0 <= i < |t| && t[i] == s[0];
    var j :| 0 <= j < |s| && s[j] == t[0];
    if i != 0 && j != 0 {
      LessTransitive(s[0], s[j], s[0]);
      LessIrreflexive(s[0]);
    }
  }

  lemma ListsTail(s: seq<Bytes>, keys: set<Bytes>)
    requires Lists(s, keys) && s != []
    ensures Lists(s[1..], keys - {s[0]})
  {
    LessIrreflexive(s[0]);
    forall k | k in keys - {s[0]} ensures k in s[1..] {
      var i :| 0 <= i < |s| && s[i] == k;
      assert s[1..][i - 1] == k;
    }
  }

  /** A set of keys has only one strictly sorted listing. */
  lemma {:induction false} ListsUnique(s: seq<Bytes>, t: seq<Bytes>, keys: set<Bytes>)
    requires Lists(s, keys) && Lists(t, keys)
    ensures s == t
  {
    ListsCount(s, keys);
    ListsCount(t, keys);
    if s != [] {
      ListsHead(s, t, keys);
      ListsTail(s, keys);
      ListsTail(t, keys);
      ListsUnique(s[1..], t[1..], keys - {s[0]});
      assert s == [s[0]] + s[1..] && t == [t[0]] + t[1..];
    }
  }

  method Insert(s: seq<Bytes>, k: Bytes) returns (r: seq<Bytes>)
    requires Sorted(s) && k !in s
    ensures Sorted(r) && forall x :: x in r <==> x == k || x in s
  {
    var i := 0;
    while i < |s| && Less(s[i], k)
      invariant 0 <= i <= |s|
      invariant forall j :: 0 <= j < i ==> Less(s[j], k)
    {
      i := i + 1;
    }
    r := s[..i] + [k] + s[i..];
    forall j | i <= j < |s| ensures Less(k, s[j]) {
      LessTotal(s[i], k);
      if j > i {
        LessTransitive(k, s[i], s[j]);
      }
    }
    assert s == s[..i] + s[i..];
  }

  /** `sort_unstable_by` over the keys of a map. */
  method SortKeys(keys: set<Bytes>) returns (s: seq<Bytes>)
    ensures Lists(s, keys)
  {
    s := [];
    var rest := keys;
    while rest != {}
      invariant rest <= keys && Lists(s, keys - rest)
      decreases rest
    {
      var k :| k in rest;
      s := Insert(s, k);
      rest := rest - {k};
    }
  }

  lemma {:induction false} InsertExists(s: seq<Bytes>, keys: set<Bytes>, k: Bytes) returns (r: seq<Bytes>)
    requires Lists(s, keys) && k !in keys
    ensures Lists(r, keys + {k})
  {
    if s == [] {
      r := [k];
    } else {
      LessTotal(s[0], k);
      if Less(k, s[0]) {
        r := [k] + s;
        forall j | 0 <= j < |s| ensures Less(k, s[j]) {
          if j > 0 {
            LessTransitive(k, s[0], s[j]);
          }
        }
      } else {
        ListsTail(s, keys);
        var rest := InsertExists(s[1..], keys - {s[0]}, k);
        r := [s[0]] + rest;
        forall x | x in rest ensures Less(s[0], x) {
          if x != k {
            assert x in s[1..];
          }
        }
        assert keys - {s[0]} + {k} + {s[0]} == keys + {k};
      }
    }
  }

  lemma {:induction false} SortExists(keys: set<Bytes>) returns (s: seq<Bytes>)
    ensures Lists(s, keys)
  {
    if keys == {} {
      s := [];
    } else {
      var k :| k in keys;
      var rest := SortExists(keys - {k});
      s := InsertExists(rest, keys - {k}, k);
      assert keys - {k} + {k} == keys;
    }
  }

  lemma ListingExists(keys: set<Bytes>)
    ensures exists s :: Lists(s, keys)
  {
    var s := SortExists(keys);
  }

  /** The sorted listing of a set of keys. */
  ghost function SortedList(keys: set<Bytes>): (s: seq<Bytes>)
    ensures Lists(s, keys)
  {
    ListingExists(keys);
    var s :| Lists(s, keys);
    s
  }
}
