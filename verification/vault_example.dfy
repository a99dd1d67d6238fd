/**
 An installation as the restart theorems assume it: a storage layout from which the whole ratchet state can be
 read back. A stored value is found under a key that names what it is.
 */
module VaultExample {
  import opened Common
  import opened Bytes
  import opened Delivery
  import opened MlsGroup
  import opened StateFormat
  import opened StateTheorems
  import opened StateExport
  import opened Staging
  import opened Restarts

  // ---------------------------------------------------------------- codes of which none begins another

  /** n ones and a zero */
  function Unary(n: nat): (b: Bytes)
    ensures b != []
  {
    if n == 0 then [0] else [1] + Unary(n - 1)
  }

  function BytesCode(s: Bytes): (b: Bytes)
    ensures b != []
  {
    if s == [] then [0] else [1, s[0]] + BytesCode(s[1..])
  }

  function NatsCode(s: seq<nat>): (b: Bytes)
    ensures b != []
  {
    if s == [] then [0] else [1] + (Unary(s[0]) + NatsCode(s[1..]))
  }

  function WireCode(w: Wire): (b: Bytes)
    ensures b != []
    decreases w
  {
    match w
    case CommitWire(author, nonce, basis) => [0] + (Unary(author) + (Unary(nonce) + WiresCode(basis)))
    case WelcomeWire(history) => [1] + WiresCode(history)
    case OtherWire(content) => [2] + NatsCode(content)
  }

  function WiresCode(s: seq<Wire>): (b: Bytes)
    ensures b != []
    decreases s
  {
    if s == [] then [0] else [1] + (WireCode(s[0]) + WiresCode(s[1..]))
  }

  function GroupCode(g: Group): Bytes {
    Unary(g.joinedAt) + (WiresCode(g.history) + (if g.pending.None? then [0] else [1] + WireCode(g.pending.value)))
  }

  function CipherCode(x: Cipher): Bytes {
    BytesCode(x.group) + x.wire
  }

  /** What stands behind the same beginning is the same. */
  lemma Behind(a: Bytes, b: Bytes, c: Bytes)
    requires a + b == a + c
    ensures b == c
  {
    assert b == (a + b)[|a|..] && c == (a + c)[|a|..];
  }

  lemma Heads(x: byte, a: Bytes, y: byte, b: Bytes)
    requires [x] + a == [y] + b
    ensures x == y && a == b
  {
    assert ([x] + a)[0] == x && ([y] + b)[0] == y;
    assert a == ([x] + a)[1..] && b == ([y] + b)[1..];
  }

  lemma {:induction false} UnaryApart(m: nat, n: nat, r: Bytes, s: Bytes)
    requires Unary(m) + r == Unary(n) + s
    ensures m == n && r == s
  {
    var a, b := if m == 0 then [] else Unary(m - 1), if n == 0 then [] else Unary(n - 1);
    var x: byte, y: byte := if m == 0 then 0 else 1, if n == 0 then 0 else 1;
    Associative([x], a, r);
    Associative([y], b, s);
    assert Unary(m) == [x] + a && Unary(n) == [y] + b;
    Heads(x, a + r, y, b + s);
    if m > 0 {
      UnaryApart(m - 1, n - 1, r, s);
    } else {
      assert a + r == r && b + s == s;
    }
  }

  lemma {:induction false} BytesApart(a: Bytes, b: Bytes, r: Bytes, s: Bytes)
    requires BytesCode(a) + r == BytesCode(b) + s
    ensures a == b && r == s
  {
    assert (BytesCode(a) + r)[0] == BytesCode(a)[0] && (BytesCode(b) + s)[0] == BytesCode(b)[0];
    if a == [] {
      Heads(0, r, 0, s);
    } else {
      BytesCodeNext(a, r);
      BytesCodeNext(b, s);
      Heads(1, [a[0]] + (BytesCode(a[1..]) + r), 1, [b[0]] + (BytesCode(b[1..]) + s));
      Heads(a[0], BytesCode(a[1..]) + r, b[0], BytesCode(b[1..]) + s);
      BytesApart(a[1..], b[1..], r, s);
      assert a == [a[0]] + a[1..] && b == [b[0]] + b[1..];
    }
  }

  lemma BytesCodeNext(a: Bytes, r: Bytes)
    requires a != []
    ensures BytesCode(a) + r == [1] + ([a[0]] + (BytesCode(a[1..]) + r))
  {}

  lemma {:induction false} NatsApart(a: seq<nat>, b: seq<nat>, r: Bytes, s: Bytes)
    requires NatsCode(a) + r == NatsCode(b) + s
    ensures a == b && r == s
  {
    assert (NatsCode(a) + r)[0] == NatsCode(a)[0] && (NatsCode(b) + s)[0] == NatsCode(b)[0];
    if a == [] {
      Heads(0, r, 0, s);
    } else {
      Three([1], Unary(a[0]), NatsCode(a[1..]), r);
      Three([1], Unary(b[0]), NatsCode(b[1..]), s);
      Behind([1], Unary(a[0]) + (NatsCode(a[1..]) + r), Unary(b[0]) + (NatsCode(b[1..]) + s));
      UnaryApart(a[0], b[0], NatsCode(a[1..]) + r, NatsCode(b[1..]) + s);
      NatsApart(a[1..], b[1..], r, s);
      assert a == [a[0]] + a[1..] && b == [b[0]] + b[1..];
    }
  }

  lemma Three(a: Bytes, b: Bytes, c: Bytes, r: Bytes)
    ensures (a + (b + c)) + r == a + (b + (c + r))
  {
    Associative(a, b + c, r);
    Associative(b, c, r);
  }

  lemma {:induction false} WireApart(v: Wire, w: Wire, r: Bytes, s: Bytes)
    requires WireCode(v) + r == WireCode(w) + s
    ensures v == w && r == s
    decreases v
  {
    assert (WireCode(v) + r)[0] == WireCode(v)[0] && (WireCode(w) + s)[0] == WireCode(w)[0];
    match v {
      case CommitWire(author, nonce, basis) => CommitApart(v, w, r, s);
      case WelcomeWire(history) =>
        Associative([1], WiresCode(history), r);
        Associative([1], WiresCode(w.history), s);
        Behind([1], WiresCode(history) + r, WiresCode(w.history) + s);
        WiresApart(history, w.history, r, s);
      case OtherWire(content) =>
        Associative([2], NatsCode(content), r);
        Associative([2], NatsCode(w.content), s);
        Behind([2], NatsCode(content) + r, NatsCode(w.content) + s);
        NatsApart(content, w.content, r, s);
    }
  }

  lemma CommitCode(w: Wire, r: Bytes)
    requires w.CommitWire?
    ensures WireCode(w) + r == [0] + (Unary(w.author) + (Unary(w.nonce) + (WiresCode(w.basis) + r)))
  {
    Three([0], Unary(w.author), Unary(w.nonce) + WiresCode(w.basis), r);
    Associative(Unary(w.nonce), WiresCode(w.basis), r);
  }

  lemma {:induction false} CommitApart(v: Wire, w: Wire, r: Bytes, s: Bytes)
    requires v.CommitWire? && w.CommitWire? && WireCode(v) + r == WireCode(w) + s
    ensures v == w && r == s
    decreases v, 0
  {
    CommitCode(v, r);
    CommitCode(w, s);
    var vn, wn := Unary(v.nonce) + (WiresCode(v.basis) + r), Unary(w.nonce) + (WiresCode(w.basis) + s);
    Behind([0], Unary(v.author) + vn, Unary(w.author) + wn);
    UnaryApart(v.author, w.author, vn, wn);
    UnaryApart(v.nonce, w.nonce, WiresCode(v.basis) + r, WiresCode(w.basis) + s);
    WiresApart(v.basis, w.basis, r, s);
  }

  lemma {:induction false} WiresApart(a: seq<Wire>, b: seq<Wire>, r: Bytes, s: Bytes)
    requires WiresCode(a) + r == WiresCode(b) + s
    ensures a == b && r == s
    decreases a
  {
    assert (WiresCode(a) + r)[0] == WiresCode(a)[0] && (WiresCode(b) + s)[0] == WiresCode(b)[0];
    if a == [] {
      Heads(0, r, 0, s);
    } else {
      Three([1], WireCode(a[0]), WiresCode(a[1..]), r);
      Three([1], WireCode(b[0]), WiresCode(b[1..]), s);
      Behind([1], WireCode(a[0]) + (WiresCode(a[1..]) + r), WireCode(b[0]) + (WiresCode(b[1..]) + s));
      WireApart(a[0], b[0], WiresCode(a[1..]) + r, WiresCode(b[1..]) + s);
      WiresApart(a[1..], b[1..], r, s);
      assert a == [a[0]] + a[1..] && b == [b[0]] + b[1..];
    }
  }

  lemma GroupCodeInjective(g: Group, h: Group)
    requires GroupCode(g) == GroupCode(h)
    ensures g == h
  {
    var gp := if g.pending.None? then [0] else [1] + WireCode(g.pending.value);
    var hp := if h.pending.None? then [0] else [1] + WireCode(h.pending.value);
    UnaryApart(g.joinedAt, h.joinedAt, WiresCode(g.history) + gp, WiresCode(h.history) + hp);
    WiresApart(g.history, h.history, gp, hp);
    assert gp[0] == hp[0];
    if g.pending.Some? {
      Behind([1], WireCode(g.pending.value), WireCode(h.pending.value));
      assert WireCode(g.pending.value) + [] == WireCode(h.pending.value) + [];
      WireApart(g.pending.value, h.pending.value, [], []);
    }
  }

  lemma CipherCodeInjective(x: Cipher, y: Cipher)
    requires CipherCode(x) == CipherCode(y)
    ensures x == y
  {
    BytesApart(x.group, y.group, x.wire, y.wire);
  }

  // ---------------------------------------------------------------- the storage

  function GroupKey(g: Bytes): (k: Bytes)
    ensures k != [] && k[0] == 1
  {
    [1] + g
  }

  function CipherKey(x: Cipher): (k: Bytes)
    ensures k != [] && k[0] == 2
  {
    [2] + CipherCode(x)
  }

  lemma GroupKeys()
    ensures forall g, h :: GroupKey(g) == GroupKey(h) ==> g == h
  {
    forall g, h | GroupKey(g) == GroupKey(h) ensures g == h {
      Behind([1], g, h);
    }
  }

  lemma CipherKeys()
    ensures forall x, y :: CipherKey(x) == CipherKey(y) ==> x == y
  {
    forall x, y | CipherKey(x) == CipherKey(y) ensures x == y {
      Behind([2], CipherCode(x), CipherCode(y));
      CipherCodeInjective(x, y);
    }
  }

  ghost predicate HoldsGroups(m: map<Bytes, Bytes>, groups: map<Bytes, Group>) {
    && (forall g :: g in groups <==> GroupKey(g) in m)
    && (forall g :: g in groups ==> m[GroupKey(g)] == GroupCode(groups[g]))
  }

  ghost predicate HoldsCiphers(m: map<Bytes, Bytes>, consumed: set<Cipher>) {
    forall x :: x in consumed <==> CipherKey(x) in m
  }

  ghost predicate Begin(m: map<Bytes, Bytes>, x: byte) {
    forall k :: k in m ==> k != [] && k[0] == x
  }

  ghost function GroupEntries(groups: map<Bytes, Group>): (m: map<Bytes, Bytes>)
    ensures HoldsGroups(m, groups) && Begin(m, 1)
    ensures forall k :: k in m ==> exists g :: g in groups && k == GroupKey(g)
  {
    GroupKeys();
    var m := map g | g in groups :: GroupKey(g) := GroupCode(groups[g]);
    assert forall g :: g in groups ==> GroupKey(g) in m && m[GroupKey(g)] == GroupCode(groups[g]);
    m
  }

  ghost function CipherEntries(consumed: set<Cipher>): (m: map<Bytes, Bytes>)
    ensures HoldsCiphers(m, consumed) && Begin(m, 2)
    ensures forall k :: k in m ==> m[k] == [] && exists x :: x in consumed && k == CipherKey(x)
  {
    CipherKeys();
    var m := map x | x in consumed :: CipherKey(x) := [];
    assert forall x :: x in consumed ==> CipherKey(x) in m;
    m
  }

  lemma GroupsKept(m: map<Bytes, Bytes>, more: map<Bytes, Bytes>, groups: map<Bytes, Group>, x: byte)
    requires HoldsGroups(m, groups) && Begin(more, x) && x != 1
    ensures HoldsGroups(m + more, groups)
  {
    assert forall g :: GroupKey(g) !in more;
  }

  lemma CiphersKept(m: map<Bytes, Bytes>, more: map<Bytes, Bytes>, consumed: set<Cipher>, x: byte)
    requires HoldsCiphers(m, consumed) && Begin(more, x) && x != 2
    ensures HoldsCiphers(m + more, consumed) && HoldsCiphers(more + m, consumed)
  {
    assert forall c :: CipherKey(c) !in more;
  }

  ghost function SealedEntry(n: nat): (m: map<Bytes, Bytes>)
    ensures Begin(m, 0)
  {
    map[[0] := Unary(n)]
  }

  ghost function Store(r: Ratchets): (m: map<Bytes, Bytes>)
    ensures HoldsGroups(m, r.groups) && HoldsCiphers(m, r.consumed)
    ensures [0] in m && m[[0]] == Unary(r.sealed)
  {
    var groups, ciphers, sealed := GroupEntries(r.groups), CipherEntries(r.consumed), SealedEntry(r.sealed);
    GroupsKept(groups, ciphers, r.groups, 2);
    GroupsKept(groups + ciphers, sealed, r.groups, 0);
    CiphersKept(ciphers, groups, r.consumed, 1);
    CiphersKept(groups + ciphers, sealed, r.consumed, 0);
    groups + ciphers + sealed
  }

  lemma GroupsInjective(m: map<Bytes, Bytes>, a: map<Bytes, Group>, b: map<Bytes, Group>)
    requires HoldsGroups(m, a) && HoldsGroups(m, b)
    ensures a == b
  {
    forall g | g in a ensures g in b && a[g] == b[g] {
      assert GroupKey(g) in m;
      GroupCodeInjective(a[g], b[g]);
    }
    forall g | g in b ensures g in a {
      assert GroupKey(g) in m;
    }
  }

  lemma CiphersInjective(m: map<Bytes, Bytes>, a: set<Cipher>, b: set<Cipher>)
    requires HoldsCiphers(m, a) && HoldsCiphers(m, b)
    ensures a == b
  {
    forall x ensures x in a <==> x in b {
      assert x in a <==> CipherKey(x) in m;
    }
  }

  lemma StoreInjective(r: Ratchets, q: Ratchets)
    requires Store(r) == Store(q)
    ensures r == q
  {
    GroupsInjective(Store(r), r.groups, q.groups);
    CiphersInjective(Store(r), r.consumed, q.consumed);
    assert Unary(r.sealed) + [] == Unary(q.sealed) + [];
    UnaryApart(r.sealed, q.sealed, [], []);
  }

  ghost function Load(m: map<Bytes, Bytes>): Ratchets {
    if exists r :: Store(r) == m then var r :| Store(r) == m; r else Ratchets(map[], {}, 0)
  }

  lemma LoadOfStore(r: Ratchets)
    ensures Load(Store(r)) == r
  {
    StoreInjective(Load(Store(r)), r);
  }

  /** An installation whose storage keeps everything. */
  ghost function TheVault(): Vault {
    Vault([1], Zeros(32), 0, [1], r => Store(r), m => Load(m), (m, k) => true)
  }

  lemma TheVaultIsFaithful()
    ensures Faithful(TheVault())
  {
    var v := TheVault();
    forall r ensures v.load(v.save(r)) == r && v.hasSigner(v.save(r), v.publicKey) {
      LoadOfStore(r);
    }
  }

  // ---------------------------------------------------------------- a small device can be exported

  lemma {:induction false} ConcatSmall(chunks: seq<Bytes>)
    requires forall i :: 0 <= i < |chunks| ==> |chunks[i]| <= 256
    ensures |Concat(chunks)| <= 256 * |chunks|
  {
    if chunks != [] {
      ConcatSmall(chunks[1..]);
    }
  }

  /** At most three short values, at most one short receipt, and nothing to send. */
  ghost predicate Small(s: DeviceState) {
    && |s.identity| == 1 && |s.publicKey| == 32
    && |s.values| <= 3 && (forall k :: k in s.values ==> |k| <= 16 && |s.values[k]| <= 16)
    && |s.pending| <= 1
    && (forall k :: k in s.pending ==>
          && |k| <= 32 && |s.pending[k].plaintext| <= 16
          && |s.pending[k].credential| <= 16 && |s.pending[k].signatureKey| <= 32)
    && s.outgoing == map[]
  }

  lemma SmallValues(m: map<Bytes, Bytes>)
    requires |m| <= 3 && forall k :: k in m ==> |k| <= 16 && |m[k]| <= 16
    ensures ValuesFit(m) && |ValueSection(m)| <= 1024
  {
    ListsCount(SortedList(m.Keys), m.Keys);
    ConcatSmall(ValueChunks(m));
  }

  lemma SmallPendings(m: map<Bytes, Application>)
    requires |m| <= 1
    requires forall k :: k in m ==>
               |k| <= 32 && |m[k].plaintext| <= 16 && |m[k].credential| <= 16 && |m[k].signatureKey| <= 32
    ensures PendingsFit(m) && |PendingSection(m)| <= 512
  {
    ListsCount(SortedList(m.Keys), m.Keys);
    ConcatSmall(PendingChunks(m));
  }

  lemma SmallIsExportable(s: DeviceState)
    requires Small(s)
    ensures Exportable(s) && |Encode(3, s)| <= 4096
  {
    SmallValues(s.values);
    SmallPendings(s.pending);
    EmptySection<Outgoing>(OutgoingChunks(s.outgoing), s.outgoing);
    EncodeEnd(s);
  }

  /** The one group of the example, at epoch 0. */
  function Groups(): map<Bytes, Group> {
    map[[1] := Group(0, [], None)]
  }

  ghost predicate ShortEntries(m: map<Bytes, Bytes>) {
    forall k :: k in m ==> |k| <= 16 && |m[k]| <= 16
  }

  lemma Together(a: map<Bytes, Bytes>, b: map<Bytes, Bytes>)
    requires ShortEntries(a) && ShortEntries(b)
    ensures ShortEntries(a + b) && |a + b| <= |a| + |b|
  {
    assert (a + b).Keys == a.Keys + b.Keys;
  }

  lemma AtMostOne(m: map<Bytes, Bytes>, key: Bytes)
    requires forall k :: k in m ==> k == key
    ensures |m| <= 1
  {
    SubsetCount(m.Keys, {key});
  }

  lemma GroupsAreSmall()
    ensures ShortEntries(GroupEntries(Groups())) && |GroupEntries(Groups())| <= 1
  {
    var m := GroupEntries(Groups());
    forall k | k in m ensures k == GroupKey([1]) && |k| <= 16 && |m[k]| <= 16 {
      var g :| g in Groups() && k == GroupKey(g);
      assert m[GroupKey(g)] == GroupCode(Group(0, [], None));
    }
    AtMostOne(m, GroupKey([1]));
  }

  lemma CiphersAreSmall(consumed: set<Cipher>)
    requires consumed <= {Cipher([1], [1])}
    ensures ShortEntries(CipherEntries(consumed)) && |CipherEntries(consumed)| <= 1
  {
    var m := CipherEntries(consumed);
    assert BytesCode([1]) == [1, 1] + BytesCode([]);
    forall k | k in m ensures k == CipherKey(Cipher([1], [1])) && |k| <= 16 && |m[k]| <= 16 {
      var x :| x in consumed && k == CipherKey(x);
    }
    AtMostOne(m, CipherKey(Cipher([1], [1])));
  }

  lemma SealedIsSmall()
    ensures ShortEntries(SealedEntry(0)) && |SealedEntry(0)| <= 1
  {
    AtMostOne(SealedEntry(0), [0]);
  }

  lemma ThreeTogether(a: map<Bytes, Bytes>, b: map<Bytes, Bytes>, c: map<Bytes, Bytes>)
    requires ShortEntries(a) && ShortEntries(b) && ShortEntries(c) && |a| <= 1 && |b| <= 1 && |c| <= 1
    ensures ShortEntries(a + b + c) && |a + b + c| <= 3
  {
    Together(a, b);
    Together(a + b, c);
  }

  lemma StoreParts(r: Ratchets)
    ensures Store(r) == GroupEntries(r.groups) + CipherEntries(r.consumed) + SealedEntry(r.sealed)
  {}

  lemma StoreIsSmall(consumed: set<Cipher>)
    requires consumed <= {Cipher([1], [1])}
    ensures ShortEntries(Store(Ratchets(Groups(), consumed, 0))) && |Store(Ratchets(Groups(), consumed, 0))| <= 3
  {
    var a, b, c := GroupEntries(Groups()), CipherEntries(consumed), SealedEntry(0);
    assert ShortEntries(a + b + c) && |a + b + c| <= 3 by {
      GroupsAreSmall();
      CiphersAreSmall(consumed);
      SealedIsSmall();
      ThreeTogether(a, b, c);
    }
    StoreParts(Ratchets(Groups(), consumed, 0));
  }

  lemma StoreKeys(r: Ratchets)
    ensures forall k :: k in Store(r) ==> k != []
  {}

  lemma SavesToStore(r: Ratchets)
    ensures TheVault().save(r) == Store(r)
  {}

  /** A device in that group that has used up at most one secret, and has at most one short receipt. */
  ghost predicate SmallDevice(d: Device) {
    && d.groups == Groups() && d.consumed <= {Cipher([1], [1])} && d.sealed == 0
    && |d.pending| <= 1
    && (forall k :: k in d.pending ==>
          && |k| <= 32 && |d.pending[k].plaintext| <= 16
          && |d.pending[k].credential| <= 16 && |d.pending[k].signatureKey| <= 32)
    && d.outgoing == map[]
  }

  /** What the vault makes of a small device. */
  lemma SmallStateOf(d: Device, s: DeviceState)
    requires SmallDevice(d) && s == StateOf(TheVault(), d)
    ensures Small(s) && forall k :: k in s.values ==> k != []
  {
    var r := Ratchets(Groups(), d.consumed, 0);
    assert s.values == Store(r) by {
      SavesToStore(r);
    }
    StoreKeys(r);
    StoreIsSmall(d.consumed);
  }

  lemma SmallIsSaved(v: Vault, d: Device)
    requires Bounded(v.context, MAX_IDENTITY_BYTES) && Small(StateOf(v, d))
    ensures Saved(v, d).Ok? && |Encode(3, StateOf(v, d))| <= 4096
  {
    SmallIsExportable(StateOf(v, d));
  }

  lemma SmallDeviceIsSaved(d: Device)
    requires SmallDevice(d)
    ensures Saved(TheVault(), d).Ok? && |Encode(3, StateOf(TheVault(), d))| <= 4096
    ensures forall k :: k in StateOf(TheVault(), d).values ==> k != []
  {
    SmallStateOf(d, StateOf(TheVault(), d));
    SmallIsSaved(TheVault(), d);
  }
}
