/** Single use, expiry, order and limits of KeyPackages, over all runs. */
module KeyPackageTheorems {
  import opened Common
  import opened KeyPackages

  // ---------------------------------------------------------------- the invariant

  /** The bytes of a package are there exactly until it is claimed or its expiry is noticed. */
  ghost predicate RowOk(p: Package) {
    && p.hash != []
    && (p.claimedAt.None? ==> p.body == p.hash)
    && (p.claimedAt.Some? ==> p.body == [])
  }

  ghost predicate RowsOk(db: Db) {
    forall id :: id in db.packages ==> RowOk(db.packages[id])
  }

  ghost predicate HashesUnique(db: Db) {
    forall i, j :: i in db.packages && j in db.packages && db.packages[i].hash == db.packages[j].hash ==> i == j
  }

  /** Every package names a credential of its device. */
  ghost predicate CredentialsOk(db: Db) {
    forall id :: id in db.packages ==> Credential(db.packages[id].device, db.packages[id].key) in db.credentials
  }

  ghost predicate Inv(db: Db) {
    RowsOk(db) && HashesUnique(db) && CredentialsOk(db)
  }

  lemma CompactKeepsInv(db: Db, now: Time)
    requires Inv(db)
    ensures Inv(Compacted(db, now))
  {
    var db' := Compacted(db, now);
    forall id | id in db'.packages ensures RowOk(db'.packages[id]) {
      assert RowOk(db.packages[id]);
    }
  }

  lemma InsertKeepsInv(db: Db, device: DeviceId, item: Item)
    requires Inv(db) && Insertable(db, item) && item.body != []
    ensures Inv(Inserted(db, device, item))
  {}

  /** Rows are only added, and added rows are the submitted ones. */
  lemma {:induction false} InsertAllKeepsInv(db: Db, device: DeviceId, items: seq<Item>)
    requires Inv(db) && InsertAll(db, device, items).Some?
    requires forall i :: 0 <= i < |items| ==> items[i].body != []
    ensures Inv(InsertAll(db, device, items).value)
    decreases |items|
  {
    if items != [] {
      InsertKeepsInv(db, device, items[0]);
      InsertAllKeepsInv(Inserted(db, device, items[0]), device, items[1..]);
    }
  }

  lemma {:induction false} ItemsAccepted(items: seq<Item>, now: Time, i: nat)
    requires ItemsProblem(items, now) == None && i < |items|
    ensures ItemProblem(items[i], now) == None
  {
    if i > 0 {
      ItemsAccepted(items[1..], now, i - 1);
    }
  }

  lemma PostKeepsInv(db: Db, device: DeviceId, verified: bool, items: seq<Item>, now: Time)
    requires Inv(db)
    ensures Inv(Posted(db, device, verified, items, now))
  {
    CompactKeepsInv(db, now);
    if PostReply(db, device, verified, items, now).Registered? {
      forall i | 0 <= i < |items| ensures items[i].body != [] {
        ItemsAccepted(items, now, i);
      }
      InsertAllKeepsInv(Compacted(db, now), device, items);
    }
  }

  lemma ClaimKeepsInv(db: Db, claimant: DeviceId, target: DeviceId, targetOk: bool, now: Time)
    requires Inv(db)
    ensures Inv(ClaimedDb(db, claimant, target, targetOk, now))
  {
    CompactKeepsInv(db, now);
  }

  lemma StepKeepsInv(db: Db, op: Op)
    requires Inv(db)
    ensures Inv(Step(db, op))
  {
    match op {
      case PostOp(device, verified, items, now) => PostKeepsInv(db, device, verified, items, now);
      case ClaimOp(claimant, target, targetOk, now) => ClaimKeepsInv(db, claimant, target, targetOk, now);
      case CountOp(now) => CompactKeepsInv(db, now);
    }
  }

  lemma {:induction false} RunKeepsInv(db: Db, ops: seq<Op>)
    requires Inv(db)
    ensures Inv(Run(db, ops))
  {
    if ops != [] {
      RunKeepsInv(db, ops[..|ops| - 1]);
      StepKeepsInv(Run(db, ops[..|ops| - 1]), ops[|ops| - 1]);
    }
  }

  /** A store that starts empty, and any requests. */
  lemma FromTheStart(ops: seq<Op>)
    ensures Inv(Run(Empty(), ops))
  {
    RunKeepsInv(Empty(), ops);
  }

  // ---------------------------------------------------------------- what a claim takes

  lemma {:induction false} ChoiceExists(db: Db, ids: set<PackageId>) returns (first: PackageId)
    requires ids <= db.packages.Keys && ids != {}
    ensures first in ids && forall other :: other in ids ==> ComesFirst(db, first, other)
  {
    var x :| x in ids;
    if ids == {x} {
      first := x;
    } else {
      assert ids - {x} != {} by {
        assert ids == (ids - {x}) + {x};
      }
      var least := ChoiceExists(db, ids - {x});
      first := if ComesFirst(db, least, x) then least else x;
      forall other | other in ids ensures ComesFirst(db, first, other) {
        if other != x {
          assert ComesFirst(db, least, other);
        }
      }
    }
  }

  /** A package that is the choice is the one that is claimed. */
  lemma ChoiceIsClaimed(db: Db, target: DeviceId, now: Time, id: PackageId)
    requires IsChoice(Compacted(db, now), target, now, id)
    ensures ClaimReply(db, target, true, now) == Claimed(id, Compacted(db, now).packages[id])
  {
    var reply := ClaimReply(db, target, true, now);
    var stock := Compacted(db, now);
    assert reply.Claimed? && IsChoice(stock, target, now, reply.id);
    assert ComesFirst(stock, id, reply.id) && ComesFirst(stock, reply.id, id);
  }

  /**
   A claim succeeds exactly when the device has an unclaimed package that is not expired, and then
   hands out the whole bytes of the earliest-expiring one, strictly before its expiry.
   */
  lemma ClaimTakesEarliest(db: Db, target: DeviceId, now: Time)
    requires Inv(db)
    ensures var reply := ClaimReply(db, target, true, now);
            && (reply.Claimed? <==> Available(db, target, now) != {})
            && (reply.Claimed? ==>
                  && reply.id in Available(db, target, now)
                  && reply.package == db.packages[reply.id]
                  && reply.package.body == reply.package.hash && reply.package.expiresAt > now
                  && forall other :: other in Available(db, target, now) ==> ComesFirst(db, reply.id, other))
  {
    var reply := ClaimReply(db, target, true, now);
    var stock := Compacted(db, now);
    AvailableUnaffected(db, target, now, now);
    if Available(db, target, now) != {} {
      var first := ChoiceExists(stock, Available(stock, target, now));
      ChoiceIsClaimed(db, target, now, first);
      assert RowOk(db.packages[first]);
      forall other | other in Available(db, target, now) ensures ComesFirst(db, first, other) {
        assert ComesFirst(stock, first, other);
      }
    }
  }

  /** Noticing expiry changes nothing about what is available from then on. */
  lemma AvailableUnaffected(db: Db, device: DeviceId, now: Time, later: Time)
    requires now <= later
    ensures Available(Compacted(db, now), device, later) == Available(db, device, later)
    ensures forall id :: id in Available(db, device, later) ==> Compacted(db, now).packages[id] == db.packages[id]
  {}

  // ---------------------------------------------------------------- single use

  /** What later steps keep of a row: its identity, and that it was claimed. */
  ghost predicate Keeps(db: Db, db': Db, id: PackageId)
    requires id in db.packages
  {
    && id in db'.packages && db'.packages[id].hash == db.packages[id].hash
    && db'.packages[id].device == db.packages[id].device
    && (db.packages[id].claimedAt.Some? ==> db'.packages[id] == db.packages[id])
  }

  lemma {:induction false} InsertAllKeeps(db: Db, device: DeviceId, items: seq<Item>, id: PackageId)
    requires InsertAll(db, device, items).Some? && id in db.packages
    ensures id in InsertAll(db, device, items).value.packages
    ensures InsertAll(db, device, items).value.packages[id] == db.packages[id]
    decreases |items|
  {
    if items != [] {
      InsertAllKeeps(Inserted(db, device, items[0]), device, items[1..], id);
    }
  }

  lemma StepKeeps(db: Db, op: Op, id: PackageId)
    requires RowsOk(db) && id in db.packages
    ensures Keeps(db, Step(db, op), id)
  {
    assert RowOk(db.packages[id]);
    match op {
      case PostOp(device, verified, items, now) =>
        if PostReply(db, device, verified, items, now).Registered? {
          InsertAllKeeps(Compacted(db, now), device, items, id);
        }
      case ClaimOp(claimant, target, targetOk, now) =>
      case CountOp(now) =>
    }
  }

  lemma {:induction false} RunKeeps(db: Db, ops: seq<Op>, id: PackageId)
    requires Inv(db) && id in db.packages
    ensures Keeps(db, Run(db, ops), id)
  {
    if ops != [] {
      var earlier := ops[..|ops| - 1];
      RunKeepsInv(db, earlier);
      RunKeeps(db, earlier, id);
      StepKeeps(Run(db, earlier), ops[|ops| - 1], id);
    }
  }

  lemma {:induction false} RunSplit(db: Db, a: seq<Op>, b: seq<Op>)
    ensures Run(db, a + b) == Run(Run(db, a), b)
  {
    if b == [] {
      assert a + b == a;
    } else {
      RunSplit(db, a, b[..|b| - 1]);
      assert (a + b)[..|a + b| - 1] == a + b[..|b| - 1];
    }
  }

  /** The i-th request of a run is a claim that is answered with a package. */
  ghost predicate Hands(db: Db, op: Op) {
    op.ClaimOp? && ClaimReply(db, op.target, op.targetOk, op.now).Claimed?
  }

  ghost function Handed(db: Db, op: Op): Reply
    requires Hands(db, op)
    ensures Handed(db, op).Claimed?
  {
    ClaimReply(db, op.target, op.targetOk, op.now)
  }

  lemma HandedIsMarked(db: Db, op: Op)
    requires Inv(db) && Hands(db, op)
    ensures var r := Handed(db, op);
            && r.id in Step(db, op).packages && Step(db, op).packages[r.id].claimedAt.Some?
            && Step(db, op).packages[r.id].hash == r.package.hash
            && r.id in db.packages && db.packages[r.id].claimedAt.None? && db.packages[r.id].hash == r.package.hash
            && r.package.body == r.package.hash && r.package.device == op.target && r.package.expiresAt > op.now
  {
    ClaimTakesEarliest(db, op.target, op.now);
  }

  /** No two claims of any run are handed the same package or the same bytes. */
  lemma SingleUse(db: Db, ops: seq<Op>, i: nat, j: nat)
    requires Inv(db) && i < j < |ops|
    requires Hands(Run(db, ops[..i]), ops[i]) && Hands(Run(db, ops[..j]), ops[j])
    ensures var a, b := Handed(Run(db, ops[..i]), ops[i]), Handed(Run(db, ops[..j]), ops[j]);
            a.id != b.id && a.package.body != b.package.body
  {
    var before, after := Run(db, ops[..i]), Run(db, ops[..i + 1]);
    var a := Handed(before, ops[i]);
    RunKeepsInv(db, ops[..i]);
    RunKeepsInv(db, ops[..i + 1]);
    RunKeepsInv(db, ops[..j]);
    HandedIsMarked(before, ops[i]);
    HandedIsMarked(Run(db, ops[..j]), ops[j]);
    Pieces(ops, i, j);
    assert after == Step(before, ops[i]);
    RunSplit(db, ops[..i + 1], ops[i + 1..j]);
    RunKeeps(after, ops[i + 1..j], a.id);
  }

  // ---------------------------------------------------------------- only what was registered

  /** The bytes were registered for the device by a request of the run. */
  ghost predicate RegisteredAt(ops: seq<Op>, i: nat, device: DeviceId, bytes: Blob) {
    i < |ops| && ops[i].PostOp? && ops[i].device == device && exists item :: item in ops[i].items && item.body == bytes
  }

  ghost predicate AllRegistered(db: Db, ops: seq<Op>) {
    forall id :: id in db.packages ==>
      exists i :: RegisteredAt(ops, i, db.packages[id].device, db.packages[id].hash)
  }

  lemma {:induction false} InsertAllAdds(db: Db, device: DeviceId, items: seq<Item>, id: PackageId)
    requires InsertAll(db, device, items).Some?
    requires id in InsertAll(db, device, items).value.packages && id !in db.packages
    ensures var p := InsertAll(db, device, items).value.packages[id];
            p.device == device && exists item :: item in items && item.body == p.hash
    decreases |items|
  {
    if items != [] {
      var db' := Inserted(db, device, items[0]);
      if id in db'.packages {
        InsertAllKeeps(db', device, items[1..], id);
        assert items[0] in items;
      } else {
        InsertAllAdds(db', device, items[1..], id);
        var item :| item in items[1..] && item.body == InsertAll(db, device, items).value.packages[id].hash;
        assert item in items;
      }
    }
  }

  lemma StepAdds(db: Db, op: Op, id: PackageId)
    requires id in Step(db, op).packages && id !in db.packages
    ensures op.PostOp? && Step(db, op).packages[id].device == op.device
    ensures exists item :: item in op.items && item.body == Step(db, op).packages[id].hash
  {
    if op.PostOp? && PostReply(db, op.device, op.verified, op.items, op.now).Registered? {
      InsertAllAdds(Compacted(db, op.now), op.device, op.items, id);
    }
  }

  lemma RegisteredEarlier(ops: seq<Op>, op: Op, i: nat, device: DeviceId, bytes: Blob)
    requires RegisteredAt(ops, i, device, bytes)
    ensures RegisteredAt(ops + [op], i, device, bytes)
  {}

  lemma {:induction false} OnlyRegistered(ops: seq<Op>)
    ensures AllRegistered(Run(Empty(), ops), ops)
  {
    if ops != [] {
      var earlier, op := ops[..|ops| - 1], ops[|ops| - 1];
      var db := Run(Empty(), earlier);
      OnlyRegistered(earlier);
      RunKeepsInv(Empty(), earlier);
      assert ops == earlier + [op];
      forall id | id in Step(db, op).packages
        ensures exists i :: RegisteredAt(ops, i, Step(db, op).packages[id].device, Step(db, op).packages[id].hash)
      {
        if id in db.packages {
          var i :| RegisteredAt(earlier, i, db.packages[id].device, db.packages[id].hash);
          StepKeeps(db, op, id);
          RegisteredEarlier(earlier, op, i, db.packages[id].device, db.packages[id].hash);
        } else {
          StepAdds(db, op, id);
          assert RegisteredAt(ops, |earlier|, Step(db, op).packages[id].device, Step(db, op).packages[id].hash);
        }
      }
    }
  }

  /** Whatever a claim hands out was registered earlier, by the device it is claimed from. */
  lemma HandedWasRegistered(ops: seq<Op>, op: Op)
    requires Hands(Run(Empty(), ops), op)
    ensures exists i :: RegisteredAt(ops, i, op.target, Handed(Run(Empty(), ops), op).package.body)
  {
    OnlyRegistered(ops);
    RunKeepsInv(Empty(), ops);
    HandedIsMarked(Run(Empty(), ops), op);
    var db, r := Run(Empty(), ops), Handed(Run(Empty(), ops), op);
    ClaimTakesEarliest(db, op.target, op.now);
    var i :| RegisteredAt(ops, i, db.packages[r.id].device, db.packages[r.id].hash);
    assert RegisteredAt(ops, i, op.target, r.package.body);
  }

  // ---------------------------------------------------------------- limits

  ghost predicate Limits(db: Db, device: DeviceId, now: Time) {
    && |Available(db, device, now)| <= MAX_AVAILABLE
    && |Total(db, device)| <= MAX_TOTAL
    && |Held(db, device)| <= MAX_CREDENTIALS
  }

  lemma {:induction false} UnionCount<T>(a: set<T>, b: set<T>)
    ensures |a + b| <= |a| + |b|
  {
    assert a + b == a + (b - a);
    assert |a + (b - a)| == |a| + |b - a|;
    SubsetCount(b - a, b);
  }

  /** One insert adds at most one package to a count. */
  lemma InsertCounts(db: Db, device: DeviceId, item: Item, d: DeviceId, now: Time)
    requires item.id !in db.packages
    ensures |Available(Inserted(db, device, item), d, now)| <= |Available(db, d, now)| + 1
    ensures |Total(Inserted(db, device, item), d)| <= |Total(db, d)| + 1
    ensures d != device ==> Available(Inserted(db, device, item), d, now) == Available(db, d, now)
    ensures d != device ==> Total(Inserted(db, device, item), d) == Total(db, d)
  {
    var db' := Inserted(db, device, item);
    SubsetCount(Available(db', d, now), Available(db, d, now) + {item.id});
    SubsetCount(Total(db', d), Total(db, d) + {item.id});
  }

  lemma {:induction false} InsertAllCounts(db: Db, device: DeviceId, items: seq<Item>, d: DeviceId, now: Time)
    requires InsertAll(db, device, items).Some?
    ensures var db' := InsertAll(db, device, items).value;
            && |Available(db', d, now)| <= |Available(db, d, now)| + (if d == device then |items| else 0)
            && |Total(db', d)| <= |Total(db, d)| + (if d == device then |items| else 0)
    decreases |items|
  {
    if items != [] {
      InsertCounts(db, device, items[0], d, now);
      InsertAllCounts(Inserted(db, device, items[0]), device, items[1..], d, now);
    }
  }

  lemma {:induction false} InsertAllHeld(db: Db, device: DeviceId, items: seq<Item>, d: DeviceId)
    requires InsertAll(db, device, items).Some?
    ensures forall k :: k in Held(InsertAll(db, device, items).value, d) ==>
              k in Held(db, d) || (d == device && exists i :: 0 <= i < |items| && items[i].key == k)
    decreases |items|
  {
    if items != [] {
      var db' := Inserted(db, device, items[0]);
      InsertAllHeld(db', device, items[1..], d);
      forall k | k in Held(InsertAll(db, device, items).value, d)
        ensures k in Held(db, d) || (d == device && exists i :: 0 <= i < |items| && items[i].key == k)
      {
        if k in Held(db', d) {
          HeldAfterInsert(db, device, items[0], d, k);
        } else {
          var i :| 0 <= i < |items[1..]| && items[1..][i].key == k;
          assert items[i + 1].key == k;
        }
      }
    }
  }

  lemma HeldAfterInsert(db: Db, device: DeviceId, item: Item, d: DeviceId, k: SignatureKey)
    requires k in Held(Inserted(db, device, item), d)
    ensures k in Held(db, d) || (d == device && item.key == k)
  {
    assert Credential(d, k) in Inserted(db, device, item).credentials;
    if Credential(d, k) in db.credentials {
      assert Credential(d, k).key in Held(db, d);
    }
  }

  lemma PostKeepsLimits(db: Db, device: DeviceId, verified: bool, items: seq<Item>, now: Time, d: DeviceId)
    requires Limits(db, d, now)
    ensures Limits(Posted(db, device, verified, items, now), d, now)
  {
    AvailableUnaffected(db, d, now, now);
    var stock := Compacted(db, now);
    assert Total(stock, d) == Total(db, d) && Held(stock, d) == Held(db, d);
    if PostReply(db, device, verified, items, now).Registered? {
      InsertAllCounts(stock, device, items, d, now);
      InsertAllHeld(stock, device, items, d);
      var held := Held(InsertAll(stock, device, items).value, d);
      if d == device {
        HeldWithin(stock, device, items, held);
      } else {
        SubsetCount(held, Held(stock, d));
      }
    }
  }

  lemma HeldWithin(db: Db, device: DeviceId, items: seq<Item>, held: set<SignatureKey>)
    requires forall k :: k in held ==> k in Held(db, device) || exists i :: 0 <= i < |items| && items[i].key == k
    ensures |held| <= |Held(db, device)| + |NewKeys(db, device, items)|
  {
    SubsetCount(held, Held(db, device) + NewKeys(db, device, items));
    UnionCount(Held(db, device), NewKeys(db, device, items));
  }

  lemma ClaimTakesNoMore(db: Db, claimant: DeviceId, target: DeviceId, targetOk: bool, now: Time, d: DeviceId)
    ensures Available(ClaimedDb(db, claimant, target, targetOk, now), d, now) <= Available(db, d, now)
  {}

  lemma ClaimKeepsTotals(db: Db, claimant: DeviceId, target: DeviceId, targetOk: bool, now: Time, d: DeviceId)
    ensures Total(ClaimedDb(db, claimant, target, targetOk, now), d) == Total(db, d)
    ensures Held(ClaimedDb(db, claimant, target, targetOk, now), d) == Held(db, d)
  {}

  lemma ClaimKeepsLimits(db: Db, claimant: DeviceId, target: DeviceId, targetOk: bool, now: Time, d: DeviceId)
    requires Limits(db, d, now)
    ensures Limits(ClaimedDb(db, claimant, target, targetOk, now), d, now)
  {
    var db' := ClaimedDb(db, claimant, target, targetOk, now);
    ClaimTakesNoMore(db, claimant, target, targetOk, now, d);
    ClaimKeepsTotals(db, claimant, target, targetOk, now, d);
    SubsetCount(Available(db', d, now), Available(db, d, now));
  }

  lemma LaterLimits(db: Db, device: DeviceId, now: Time, later: Time)
    requires Limits(db, device, now) && now <= later
    ensures Limits(db, device, later)
  {
    SubsetCount(Available(db, device, later), Available(db, device, now));
  }

  lemma StepKeepsLimits(db: Db, op: Op, d: DeviceId)
    requires Limits(db, d, op.now)
    ensures Limits(Step(db, op), d, op.now)
  {
    match op {
      case PostOp(device, verified, items, now) => PostKeepsLimits(db, device, verified, items, now, d);
      case ClaimOp(claimant, target, targetOk, now) => ClaimKeepsLimits(db, claimant, target, targetOk, now, d);
      case CountOp(now) =>
        AvailableUnaffected(db, d, now, now);
        assert Total(Compacted(db, now), d) == Total(db, d) && Held(Compacted(db, now), d) == Held(db, d);
    }
  }

  /** The clock of a run never goes back. */
  ghost predicate Clocked(ops: seq<Op>) {
    forall i, j :: 0 <= i < j < |ops| ==> ops[i].now <= ops[j].now
  }

  /**
   Under a clock that does not go back, a device never has more than 100 packages available, 10000
   packages in all and 8 credentials.
   */
  lemma {:induction false} WithinLimits(ops: seq<Op>, d: DeviceId, now: Time)
    requires Clocked(ops) && (ops != [] ==> ops[|ops| - 1].now <= now)
    ensures Limits(Run(Empty(), ops), d, now)
  {
    if ops != [] {
      var earlier, op := ops[..|ops| - 1], ops[|ops| - 1];
      WithinLimits(earlier, d, op.now);
      StepKeepsLimits(Run(Empty(), earlier), op, d);
      LaterLimits(Run(Empty(), ops), d, op.now, now);
    } else {
      assert Available(Empty(), d, now) == {} && Total(Empty(), d) == {} && Held(Empty(), d) == {};
    }
  }
}
