/** The UTF-8 sanitizer, against the encoding of section 3 of RFC 3629. */
module Utf8 {
  import opened Common
  import opened Bytes

  // ---------------------------------------------------------------- the reference

  predicate Scalar(cp: nat) {
    cp < 0xD800 || 0xE000 <= cp <= 0x10FFFF
  }

  /** The octets of one character. */
  function EncodeChar(cp: nat): (b: Bytes)
    requires Scalar(cp)
    ensures 1 <= |b| <= 4
  {
    if cp < 0x80 then [cp]
    else if cp < 0x800 then [0xC0 + cp / 64, 0x80 + cp % 64]
    else if cp < 0x1_0000 then [0xE0 + cp / 4096, 0x80 + cp / 64 % 64, 0x80 + cp % 64]
    else [0xF0 + cp / 262144, 0x80 + cp / 4096 % 64, 0x80 + cp / 64 % 64, 0x80 + cp % 64]
  }

  predicate Scalars(cps: seq<nat>) {
    forall i :: 0 <= i < |cps| ==> Scalar(cps[i])
  }

  function EncodeText(cps: seq<nat>): Bytes
    requires Scalars(cps)
  {
    if cps == [] then [] else EncodeChar(cps[0]) + EncodeText(cps[1..])
  }

  ghost predicate Encodes(s: Bytes, cps: seq<nat>) {
    Scalars(cps) && s == EncodeText(cps)
  }

  ghost predicate WellFormed(s: Bytes) {
    exists cps :: Encodes(s, cps)
  }

  // ---------------------------------------------------------------- the sanitizer

  /** U+FFFD */
  const REPLACEMENT: Bytes := [0xEF, 0xBF, 0xBD]

  /** (c & 0xC0) == 0x80 */
  predicate Continues(c: byte) {
    0x80 <= c < 0xC0
  }

  function Low6(c: byte): nat {
    c % 64
  }

  /** The length of the sequence that is accepted at the start of the input, 0 if there is none. */
  function Accepted(s: Bytes): (n: nat)
    requires s != []
    ensures n <= 4 && n <= |s|
  {
    var c := s[0];
    if c < 0x80 then 1
    else if 0xC0 <= c < 0xE0 then
      if |s| < 2 || !Continues(s[1]) then 0
      else
        var cp := c % 32 * 64 + Low6(s[1]);
        if cp < 0x80 || cp > 0x7FF then 0 else 2
    else if 0xE0 <= c < 0xF0 then
      if |s| < 3 || !Continues(s[1]) || !Continues(s[2]) then 0
      else
        var cp := c % 16 * 4096 + Low6(s[1]) * 64 + Low6(s[2]);
        if cp < 0x800 || cp > 0xFFFF || 0xD800 <= cp <= 0xDFFF then 0 else 3
    else if 0xF0 <= c < 0xF8 then
      if |s| < 4 || !Continues(s[1]) || !Continues(s[2]) || !Continues(s[3]) then 0
      else
        var cp := c % 8 * 262144 + Low6(s[1]) * 4096 + Low6(s[2]) * 64 + Low6(s[3]);
        if cp < 0x1_0000 || cp > 0x10FFFF then 0 else 4
    else 0
  }

  function Sanitized(s: Bytes): Bytes {
    if s == [] then []
    else if Accepted(s) == 0 then REPLACEMENT + Sanitized(s[1..])
    else s[..Accepted(s)] + Sanitized(s[Accepted(s)..])
  }

  /** The branches of the loop: how many bytes are copied, or 0 for a replacement. */
  method Examine(s: Bytes, i: nat) returns (n: nat)
    requires i < |s|
    ensures n == Accepted(s[i..])
  {
    ghost var rest := s[i..];
    assert forall k :: 0 <= k < |rest| ==> rest[k] == s[i + k];
    var c := s[i];
    if c < 0x80 {
      return 1;
    }
    if 0xC0 <= c < 0xE0 {
      if i + 1 >= |s| || !Continues(s[i + 1]) {
        return 0;
      }
      var cp := c % 32 * 64 + Low6(s[i + 1]);
      return if cp < 0x80 || cp > 0x7FF then 0 else 2;
    }
    if 0xE0 <= c < 0xF0 {
      if i + 2 >= |s| || !Continues(s[i + 1]) || !Continues(s[i + 2]) {
        return 0;
      }
      var cp := c % 16 * 4096 + Low6(s[i + 1]) * 64 + Low6(s[i + 2]);
      return if cp < 0x800 || cp > 0xFFFF || 0xD800 <= cp <= 0xDFFF then 0 else 3;
    }
    if 0xF0 <= c < 0xF8 {
      if i + 3 >= |s| || !Continues(s[i + 1]) || !Continues(s[i + 2]) || !Continues(s[i + 3]) {
        return 0;
      }
      var cp := c % 8 * 262144 + Low6(s[i + 1]) * 4096 + Low6(s[i + 2]) * 64 + Low6(s[i + 3]);
      return if cp < 0x1_0000 || cp > 0x10FFFF then 0 else 4;
    }
    return 0;
  }

  /** What is left to do behind a part of the output. */
  ghost predicate Done(s: Bytes, i: nat, out: Bytes) {
    i <= |s| && out + Sanitized(s[i..]) == Sanitized(s)
  }

  /** `SanitizeUtf8ForFlutter` */
  method SanitizeUtf8ForFlutter(s: Bytes) returns (out: Bytes)
    ensures out == Sanitized(s)
  {
    out := [];
    var i := 0;
    Begin(s);
    while i < |s|
      invariant Done(s, i, out)
    {
      var n := Examine(s, i);
      if n == 0 {
        Replace(s, i, out);
        out := out + REPLACEMENT;
        i := i + 1;
      } else {
        Advance(s, i, n, out);
        out := out + s[i..i + n];
        i := i + n;
      }
    }
    End(s, i, out);
  }

  lemma Begin(s: Bytes)
    ensures Done(s, 0, [])
  {
    assert s[0..] == s;
  }

  lemma End(s: Bytes, i: nat, out: Bytes)
    requires Done(s, i, out) && i >= |s|
    ensures out == Sanitized(s)
  {
    assert s[i..] == [];
  }

  lemma Advance(s: Bytes, i: nat, n: nat, out: Bytes)
    requires i < |s| && n > 0 && Accepted(s[i..]) == n && Done(s, i, out)
    ensures i + n <= |s| && Done(s, i + n, out + s[i..i + n])
  {
    assert s[i..][..n] == s[i..i + n] && s[i..][n..] == s[i + n..];
    Associative(out, s[i..i + n], Sanitized(s[i + n..]));
  }

  lemma Replace(s: Bytes, i: nat, out: Bytes)
    requires i < |s| && Accepted(s[i..]) == 0 && Done(s, i, out)
    ensures Done(s, i + 1, out + REPLACEMENT)
  {
    assert s[i..][1..] == s[i + 1..];
    Associative(out, REPLACEMENT, Sanitized(s[i + 1..]));
  }

  // ---------------------------------------------------------------- one character

  /** The bits of a character, taken apart and put together. */
  lemma Bits(cp: nat)
    requires cp < 0x20_0000
    ensures cp == cp / 262144 * 262144 + cp / 4096 % 64 * 4096 + cp / 64 % 64 * 64 + cp % 64
  {
    assert cp == cp / 64 * 64 + cp % 64;
    assert cp / 64 == cp / 4096 * 64 + cp / 64 % 64;
    assert cp / 4096 == cp / 262144 * 64 + cp / 4096 % 64;
  }

  lemma TwoAccepted(cp: nat, s: Bytes)
    requires 0x80 <= cp < 0x800 && |s| >= 2 && s[..2] == EncodeChar(cp)
    ensures Accepted(s) == 2
  {
    assert s[0] == s[..2][0] && s[1] == s[..2][1];
  }

  /** The bytes of a three-byte character. */
  lemma ThreeParts(cp: nat, s: Bytes)
    requires Scalar(cp) && 0x800 <= cp < 0x1_0000 && |s| >= 3 && s[..3] == EncodeChar(cp)
    ensures s[0] == 0xE0 + cp / 4096 && s[1] == 0x80 + cp / 64 % 64 && s[2] == 0x80 + cp % 64
  {
    assert s[0] == s[..3][0] && s[1] == s[..3][1] && s[2] == s[..3][2];
  }

  lemma ThreeAccepted(cp: nat, s: Bytes)
    requires Scalar(cp) && 0x800 <= cp < 0x1_0000 && |s| >= 3 && s[..3] == EncodeChar(cp)
    ensures Accepted(s) == 3
  {
    ThreeParts(cp, s);
    Bits(cp);
    assert s[0] % 16 == cp / 4096 && Low6(s[1]) == cp / 64 % 64 && Low6(s[2]) == cp % 64;
  }

  lemma FourAccepted(cp: nat, s: Bytes)
    requires 0x1_0000 <= cp <= 0x10FFFF && |s| >= 4 && s[..4] == EncodeChar(cp)
    ensures Accepted(s) == 4
  {
    assert s[0] == s[..4][0] && s[1] == s[..4][1] && s[2] == s[..4][2] && s[3] == s[..4][3];
    Bits(cp);
    assert s[0] % 8 == cp / 262144 && Low6(s[1]) == cp / 4096 % 64;
    assert Low6(s[2]) == cp / 64 % 64 && Low6(s[3]) == cp % 64;
  }

  /** Whatever follows, the encoding of a character is accepted as a whole. */
  lemma EncodedIsAccepted(cp: nat, rest: Bytes)
    requires Scalar(cp)
    ensures Accepted(EncodeChar(cp) + rest) == |EncodeChar(cp)|
  {
    var s := EncodeChar(cp) + rest;
    assert s[..|EncodeChar(cp)|] == EncodeChar(cp);
    if cp < 0x80 {
      assert s[0] == cp;
    } else if cp < 0x800 {
      TwoAccepted(cp, s);
    } else if cp < 0x1_0000 {
      ThreeAccepted(cp, s);
    } else {
      FourAccepted(cp, s);
    }
  }

  lemma LastDigit(q: nat, d: nat)
    requires d < 64
    ensures (q * 64 + d) / 64 == q && (q * 64 + d) % 64 == d
  {}

  lemma DigitsAbove(cp: nat)
    ensures cp / 4096 == cp / 64 / 64 && cp / 262144 == cp / 64 / 64 / 64
  {}

  /** A number from its base-64 digits. */
  lemma Digits(a: nat, b: nat, c: nat, d: nat)
    requires b < 64 && c < 64 && d < 64
    ensures var cp := a * 262144 + b * 4096 + c * 64 + d;
            cp % 64 == d && cp / 64 % 64 == c && cp / 4096 % 64 == b && cp / 262144 == a
  {
    LastDigit(a, b);
    LastDigit(a * 64 + b, c);
    LastDigit((a * 64 + b) * 64 + c, d);
    DigitsAbove(((a * 64 + b) * 64 + c) * 64 + d);
    assert ((a * 64 + b) * 64 + c) * 64 + d == a * 262144 + b * 4096 + c * 64 + d;
  }

  lemma TwoBytes(s: Bytes) returns (cp: nat)
    requires s != [] && Accepted(s) == 2
    ensures Scalar(cp) && EncodeChar(cp) == s[..2]
  {
    cp := s[0] % 32 * 64 + Low6(s[1]);
    assert cp / 64 == s[0] % 32 && cp % 64 == Low6(s[1]);
  }

  lemma ThreeBytes(s: Bytes) returns (cp: nat)
    requires s != [] && Accepted(s) == 3
    ensures Scalar(cp) && EncodeChar(cp) == s[..3]
  {
    cp := s[0] % 16 * 4096 + Low6(s[1]) * 64 + Low6(s[2]);
    Digits(0, s[0] % 16, Low6(s[1]), Low6(s[2]));
    assert cp / 4096 == s[0] % 16;
  }

  lemma FourBytes(s: Bytes) returns (cp: nat)
    requires s != [] && Accepted(s) == 4
    ensures Scalar(cp) && EncodeChar(cp) == s[..4]
  {
    cp := s[0] % 8 * 262144 + Low6(s[1]) * 4096 + Low6(s[2]) * 64 + Low6(s[3]);
    Digits(s[0] % 8, Low6(s[1]), Low6(s[2]), Low6(s[3]));
  }

  /** What is accepted is the encoding of a character: no overlong form, no surrogate, nothing above U+10FFFF. */
  lemma AcceptedIsEncoded(s: Bytes) returns (cp: nat)
    requires s != [] && Accepted(s) > 0
    ensures Scalar(cp) && EncodeChar(cp) == s[..Accepted(s)]
  {
    if Accepted(s) == 1 {
      cp := s[0];
    } else if Accepted(s) == 2 {
      cp := TwoBytes(s);
    } else if Accepted(s) == 3 {
      cp := ThreeBytes(s);
    } else {
      cp := FourBytes(s);
    }
  }

  lemma ReplacementIsEncoded()
    ensures Scalar(0xFFFD) && EncodeChar(0xFFFD) == REPLACEMENT
  {}

  // ---------------------------------------------------------------- whole texts

  lemma EncodesMore(cp: nat, s: Bytes, cps: seq<nat>)
    requires Scalar(cp) && Encodes(s, cps)
    ensures Encodes(EncodeChar(cp) + s, [cp] + cps)
  {
    assert ([cp] + cps)[1..] == cps;
  }

  /** The output is well-formed UTF-8 for every input. */
  lemma {:induction false} OutputIsWellFormed(s: Bytes)
    ensures WellFormed(Sanitized(s))
  {
    if s == [] {
      assert Encodes([], []);
    } else if Accepted(s) == 0 {
      OutputIsWellFormed(s[1..]);
      var cps :| Encodes(Sanitized(s[1..]), cps);
      ReplacementIsEncoded();
      EncodesMore(0xFFFD, Sanitized(s[1..]), cps);
    } else {
      OutputIsWellFormed(s[Accepted(s)..]);
      var cps :| Encodes(Sanitized(s[Accepted(s)..]), cps);
      var cp := AcceptedIsEncoded(s);
      EncodesMore(cp, Sanitized(s[Accepted(s)..]), cps);
    }
  }

  lemma {:induction false} TextIsKept(cps: seq<nat>)
    requires Scalars(cps)
    ensures Sanitized(EncodeText(cps)) == EncodeText(cps)
  {
    if cps != [] {
      var first, rest := EncodeChar(cps[0]), EncodeText(cps[1..]);
      EncodedIsAccepted(cps[0], rest);
      assert (first + rest)[..|first|] == first && (first + rest)[|first|..] == rest;
      TextIsKept(cps[1..]);
    }
  }

  /** The sanitizer is the identity exactly on well-formed input. */
  lemma IdentityExactlyOnWellFormed(s: Bytes)
    ensures Sanitized(s) == s <==> WellFormed(s)
  {
    OutputIsWellFormed(s);
    if WellFormed(s) {
      var cps :| Encodes(s, cps);
      TextIsKept(cps);
    }
  }

  lemma Idempotent(s: Bytes)
    ensures Sanitized(Sanitized(s)) == Sanitized(s)
  {
    OutputIsWellFormed(s);
    IdentityExactlyOnWellFormed(Sanitized(s));
  }

  lemma {:induction false} AtMostTripled(s: Bytes)
    ensures |Sanitized(s)| <= 3 * |s|
  {
    if s != [] {
      if Accepted(s) == 0 {
        AtMostTripled(s[1..]);
      } else {
        AtMostTripled(s[Accepted(s)..]);
      }
    }
  }

  // ---------------------------------------------------------------- damage is local

  lemma AcceptedLocal(a: Bytes, b: Bytes)
    requires a != [] && (b == [] || !Continues(b[0]))
    ensures Accepted(a + b) == Accepted(a)
  {
    assert forall i :: 0 <= i < |a| ==> (a + b)[i] == a[i];
    if b != [] {
      assert (a + b)[|a|] == b[0];
    }
  }

  /**
   Text that does not begin inside a character is sanitized on its own, whatever stands before it;
   so well-formed text is kept behind any damage.
   */
  lemma {:induction false} DamageIsLocal(a: Bytes, b: Bytes)
    requires b == [] || !Continues(b[0])
    ensures Sanitized(a + b) == Sanitized(a) + Sanitized(b)
    decreases |a|
  {
    if a == [] {
      assert a + b == b;
    } else {
      AcceptedLocal(a, b);
      var n := if Accepted(a) == 0 then 1 else Accepted(a);
      DropFront(a, b, n);
      var head := if Accepted(a) == 0 then REPLACEMENT else a[..n];
      assert Sanitized(a) == head + Sanitized(a[n..]) by {
        FirstStep(a, n, head, a[n..]);
      }
      assert Sanitized(a + b) == head + Sanitized(a[n..] + b) by {
        FirstStep(a + b, n, head, a[n..] + b);
      }
      DamageIsLocal(a[n..], b);
      Associative(head, Sanitized(a[n..]), Sanitized(b));
    }
  }

  lemma FirstStep(s: Bytes, n: nat, head: Bytes, rest: Bytes)
    requires s != [] && n == (if Accepted(s) == 0 then 1 else Accepted(s))
    requires head == (if Accepted(s) == 0 then REPLACEMENT else s[..n]) && rest == s[n..]
    ensures Sanitized(s) == head + Sanitized(rest)
  {}

  lemma DropFront(a: Bytes, b: Bytes, n: nat)
    requires n <= |a|
    ensures (a + b)[n..] == a[n..] + b && (a + b)[..n] == a[..n]
  {}

  lemma KeptBehindDamage(damaged: Bytes, cps: seq<nat>)
    requires Scalars(cps)
    ensures Sanitized(damaged + EncodeText(cps)) == Sanitized(damaged) + EncodeText(cps)
  {
    TextIsKept(cps);
    DamageIsLocal(damaged, EncodeText(cps));
  }

  // ---------------------------------------------------------------- one step

  /** A character begins the text. */
  predicate Begins(cp: nat, s: Bytes) {
    Scalar(cp) && EncodeChar(cp) <= s
  }

  /** A character is copied; a byte where none begins is replaced by U+FFFD, it alone. */
  lemma SanitizedExactly(s: Bytes)
    requires s != []
    ensures forall cp :: Begins(cp, s) ==> Sanitized(s) == EncodeChar(cp) + Sanitized(s[|EncodeChar(cp)|..])
    ensures (forall cp :: !Begins(cp, s)) ==> Sanitized(s) == EncodeChar(0xFFFD) + Sanitized(s[1..])
  {
    forall cp | Begins(cp, s) ensures Sanitized(s) == EncodeChar(cp) + Sanitized(s[|EncodeChar(cp)|..]) {
      var b := EncodeChar(cp);
      EncodedIsAccepted(cp, s[|b|..]);
      assert s == b + s[|b|..];
    }
    if Accepted(s) > 0 {
      var cp := AcceptedIsEncoded(s);
      assert Begins(cp, s);
    }
    ReplacementIsEncoded();
  }

  lemma EncodedFirst(cp: nat, rest: seq<nat>)
    requires Scalars([cp] + rest)
    ensures Scalar(cp) && Scalars(rest) && EncodeText([cp] + rest) == EncodeChar(cp) + EncodeText(rest)
  {
    assert ([cp] + rest)[0] == cp && ([cp] + rest)[1..] == rest;
    forall i | 0 <= i < |rest| ensures Scalar(rest[i]) {
      assert ([cp] + rest)[i + 1] == rest[i];
    }
  }

  lemma EncodedTwo(a: nat, b: nat)
    requires Scalar(a) && Scalar(b)
    ensures EncodeText([a, b]) == EncodeChar(a) + EncodeChar(b)
  {
    EncodedFirst(b, []);
    assert [b] + [] == [b] && EncodeChar(b) + [] == EncodeChar(b);
    EncodedFirst(a, [b]);
    assert [a] + [b] == [a, b];
  }

  /** The characters of the three examples of section 7 of RFC 3629, one byte to four. */
  lemma ReferenceExamples()
    ensures EncodeChar(0x41) == [0x41] && EncodeChar(0x2262) == [0xE2, 0x89, 0xA2] && EncodeChar(0x391) == [0xCE, 0x91]
    ensures EncodeChar(0xD55C) == [0xED, 0x95, 0x9C] && EncodeChar(0xAD6D) == [0xEA, 0xB5, 0xAD]
    ensures EncodeText([0xFEFF, 0x233B4]) == [0xEF, 0xBB, 0xBF, 0xF0, 0xA3, 0x8E, 0xB4]
  {
    EncodedTwo(0xFEFF, 0x233B4);
  }
}
