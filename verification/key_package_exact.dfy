/**
 The stock of KeyPackages told from the columns of the tables: which registrations are accepted, what they write,
 and which package a claim hands out.
 */
module KeyPackageExact {
  import opened Checks
  import opened Common
  import opened KeyPackages
  import opened KeyPackageTheorems

  // ---------------------------------------------------------------- expiry

  /** A package that is due loses its bytes, and counts as claimed at its expiry unless it was claimed before. */
  lemma CompactedExactly(db: Db, now: Time)
    requires Inv(db)
    ensures Compacted(db, now).packages.Keys == db.packages.Keys && Compacted(db, now).credentials == db.credentials
    ensures forall id :: id in db.packages ==>
              var p := db.packages[id];
              Compacted(db, now).packages[id]
              == if now >= p.expiresAt && p.claimedAt == None
                 then Package(p.device, p.key, p.binding, [], p.hash, p.expiresAt, Some(p.expiresAt), p.claimedBy) else p
  {
    forall id | id in db.packages ensures RowOk(db.packages[id]) {}
  }

  /** The unclaimed packages of a device that are not due. */
  function Stock(db: Db, device: DeviceId, now: Time): set<PackageId> {
    set id | id in db.packages && db.packages[id].device == device && db.packages[id].claimedAt == None
             && now < db.packages[id].expiresAt
  }

  function Everything(db: Db, device: DeviceId): set<PackageId> {
    set id | id in db.packages && db.packages[id].device == device
  }

  /** The signature keys of a device, and those of the submitted packages. */
  function Keys(db: Db, device: DeviceId, items: seq<Item>): set<SignatureKey> {
    (set c | c in db.credentials && c.device == device :: c.key) + (set i | 0 <= i < |items| :: items[i].key)
  }

  lemma CountsMean(db: Db, device: DeviceId, items: seq<Item>, now: Time)
    ensures Available(Compacted(db, now), device, now) == Stock(db, device, now)
    ensures Total(Compacted(db, now), device) == Everything(db, device)
    ensures |Held(Compacted(db, now), device)| + |NewKeys(Compacted(db, now), device, items)| == |Keys(db, device, items)|
  {
    var stock := Compacted(db, now);
    var held, added := Held(stock, device), NewKeys(stock, device, items);
    assert Keys(db, device, items) == held + added by {
      forall k | k in Keys(db, device, items) ensures k in held + added {
        if k !in held {
          var i :| 0 <= i < |items| && items[i].key == k;
          assert items[i].key in added;
        }
      }
    }
  }

  // ---------------------------------------------------------------- what a registration needs

  /** Suite 1, five minutes to thirty days to live, 64 to 65536 bytes. */
  predicate ItemFits(item: Item, now: Time) {
    && item.ciphersuite == 1
    && now + 300000 <= item.expiresAt && item.expiresAt <= now + 2592000000
    && |item.body| >= 64 && |item.body| <= 65536
  }

  function ItemRequirements(item: Item, now: Time): seq<Check<Problem>> {
    [Check(ItemFits(item, now), InvalidPackage), Check(item.bound, NotBound)]
  }

  function ItemsRequirements(items: seq<Item>, now: Time): seq<Check<Problem>> {
    if items == [] then [] else ItemRequirements(items[0], now) + ItemsRequirements(items[1..], now)
  }

  /** No submitted id and no submitted bytes are in the table, or twice in the list. */
  predicate AllNew(db: Db, items: seq<Item>) {
    && (forall i :: 0 <= i < |items| ==>
          items[i].id !in db.packages && forall id :: id in db.packages ==> db.packages[id].hash != items[i].body)
    && (forall i, j :: 0 <= i < j < |items| ==> items[i].id != items[j].id && items[i].body != items[j].body)
  }

  function StockRequirements(db: Db, device: DeviceId, items: seq<Item>, now: Time): seq<Check<Problem>> {
    [Check(|Stock(db, device, now)| + |items| <= 100, PackageLimit),
     Check(|Everything(db, device)| + |items| <= 10000, HistoryLimit),
     Check(|Keys(db, device, items)| <= 8, CredentialLimit),
     Check(AllNew(db, items), Duplicate)]
  }

  function FormRequirements(items: seq<Item>, verified: bool): seq<Check<Problem>> {
    [Check(|items| == 1 || |items| == 2, WrongCount), Check(verified, YuidRequired)]
  }

  function PostRequirements(db: Db, device: DeviceId, verified: bool, items: seq<Item>, now: Time): seq<Check<Problem>> {
    FormRequirements(items, verified) + (ItemsRequirements(items, now) + StockRequirements(db, device, items, now))
  }

  lemma ItemMeans(item: Item, now: Time)
    ensures Answers(ItemRequirements(item, now), ItemProblem(item, now))
  {
    var r := ItemRequirements(item, now);
    InOrder2(r[0], r[1], ItemProblem(item, now));
    assert r == [r[0], r[1]];
  }

  lemma {:induction false} ItemsMean(items: seq<Item>, now: Time)
    ensures Answers(ItemsRequirements(items, now), ItemsProblem(items, now))
  {
    if items != [] {
      ItemMeans(items[0], now);
      ItemsMean(items[1..], now);
      InTwoParts(ItemRequirements(items[0], now), ItemsRequirements(items[1..], now), ItemProblem(items[0], now),
                 ItemsProblem(items, now));
    }
  }

  lemma InsertedIsNew(db: Db, device: DeviceId, items: seq<Item>)
    requires items != []
    ensures AllNew(db, items) <==> Insertable(db, items[0]) && AllNew(Inserted(db, device, items[0]), items[1..])
  {
    var item, rest, db' := items[0], items[1..], Inserted(db, device, items[0]);
    assert forall id :: id in db'.packages <==> id in db.packages || id == item.id;
    assert db'.packages[item.id].hash == item.body;
    if AllNew(db, items) {
      forall i | 0 <= i < |rest|
        ensures rest[i].id !in db'.packages && forall id :: id in db'.packages ==> db'.packages[id].hash != rest[i].body
      {
        assert rest[i] == items[i + 1] && items[0].id != items[i + 1].id;
      }
    }
    if Insertable(db, item) && AllNew(db', rest) {
      forall i | 0 <= i < |items|
        ensures items[i].id !in db.packages && forall id :: id in db.packages ==> db.packages[id].hash != items[i].body
      {
        if i > 0 {
          NotBefore(db, device, item, rest[i - 1]);
        }
      }
      forall i, j | 0 <= i < j < |items| ensures items[i].id != items[j].id && items[i].body != items[j].body {
        assert items[j] == rest[j - 1];
        if i > 0 {
          assert items[i] == rest[i - 1];
        } else {
          NotBefore(db, device, item, rest[j - 1]);
        }
      }
    }
  }

  /** What is new behind an insert was new before it, and differs from what was inserted. */
  lemma NotBefore(db: Db, device: DeviceId, item: Item, other: Item)
    requires Insertable(db, item) && Insertable(Inserted(db, device, item), other)
    ensures Insertable(db, other) && other.id != item.id && other.body != item.body
  {
    var db' := Inserted(db, device, item);
    assert db'.packages[item.id].hash != other.body;
    forall id | id in db.packages ensures db.packages[id].hash != other.body {
      assert id in db'.packages && db'.packages[id] == db.packages[id];
    }
  }

  /** All packages are inserted exactly when all are new. */
  lemma {:induction false} InsertsExactly(db: Db, device: DeviceId, items: seq<Item>)
    ensures InsertAll(db, device, items).Some? <==> AllNew(db, items)
    decreases |items|
  {
    if items != [] {
      InsertsExactly(Inserted(db, device, items[0]), device, items[1..]);
      InsertedIsNew(db, device, items);
    }
  }

  lemma StockMeans(db: Db, device: DeviceId, items: seq<Item>, now: Time)
    ensures Answers(StockRequirements(db, device, items, now), StockProblem(Compacted(db, now), device, items, now))
  {
    CountsMean(db, device, items, now);
    InsertsExactly(Compacted(db, now), device, items);
    assert AllNew(Compacted(db, now), items) <==> AllNew(db, items) by {
      assert forall id :: id in db.packages ==> Compacted(db, now).packages[id].hash == db.packages[id].hash;
      assert forall id :: id in Compacted(db, now).packages <==> id in db.packages;
    }
    var r := StockRequirements(db, device, items, now);
    InOrder4(r[0], r[1], r[2], r[3], StockProblem(Compacted(db, now), device, items, now));
    assert r == [r[0], r[1], r[2], r[3]];
  }

  function FormProblem(items: seq<Item>, verified: bool): Option<Problem> {
    if !(1 <= |items| <= 2) then Some(WrongCount) else if !verified then Some(YuidRequired) else None
  }

  function PostProblem(db: Db, device: DeviceId, verified: bool, items: seq<Item>, now: Time): Option<Problem> {
    match PostReply(db, device, verified, items, now)
    case Failed(problem) => Some(problem)
    case _ => None
  }

  /** Packages are registered, as many as were submitted, exactly when every requirement is met. */
  lemma PostedExactly(db: Db, device: DeviceId, verified: bool, items: seq<Item>, now: Time)
    ensures Answers(PostRequirements(db, device, verified, items, now), PostProblem(db, device, verified, items, now))
    ensures PostProblem(db, device, verified, items, now) == None ==>
              PostReply(db, device, verified, items, now) == Registered(|items|)
  {
    var form := FormRequirements(items, verified);
    InOrder2(form[0], form[1], FormProblem(items, verified));
    assert form == [form[0], form[1]];
    ItemsMean(items, now);
    StockMeans(db, device, items, now);
    var behind := if ItemsProblem(items, now).Some? then ItemsProblem(items, now)
                  else StockProblem(Compacted(db, now), device, items, now);
    InTwoParts(ItemsRequirements(items, now), StockRequirements(db, device, items, now), ItemsProblem(items, now), behind);
    InTwoParts(form, ItemsRequirements(items, now) + StockRequirements(db, device, items, now),
               FormProblem(items, verified), PostProblem(db, device, verified, items, now));
  }

  // ---------------------------------------------------------------- what a registration writes

  /** The row of a submitted package: unclaimed, with the expiry it was submitted with. */
  predicate IsRow(p: Package, device: DeviceId, item: Item) {
    && p.device == device && p.key == item.key && p.binding == item.binding
    && p.body == item.body && p.hash == item.body && p.expiresAt == item.expiresAt
    && p.claimedAt == None && p.claimedBy == None
  }

  /** Every submitted package has its row, and the other rows stay. */
  ghost predicate RowsWritten(db: Db, db': Db, device: DeviceId, items: seq<Item>) {
    && (forall id :: id in db'.packages <==> id in db.packages || exists i :: 0 <= i < |items| && items[i].id == id)
    && (forall id :: id in db.packages ==> id in db'.packages && db'.packages[id] == db.packages[id])
    && (forall i :: 0 <= i < |items| ==> items[i].id in db'.packages && IsRow(db'.packages[items[i].id], device, items[i]))
  }

  /** The device holds the keys of the packages; a credential keeps the binding it was first registered with. */
  ghost predicate CredentialsWritten(db: Db, db': Db, device: DeviceId, items: seq<Item>) {
    && (forall c :: c in db'.credentials <==>
          c in db.credentials || (c.device == device && exists i :: 0 <= i < |items| && items[i].key == c.key))
    && (forall c :: c in db.credentials ==> c in db'.credentials && db'.credentials[c] == db.credentials[c])
    && (forall i :: 0 <= i < |items| && Credential(device, items[i].key) !in db.credentials
                    && (forall j :: 0 <= j < i ==> items[j].key != items[i].key) ==>
          && Credential(device, items[i].key) in db'.credentials
          && db'.credentials[Credential(device, items[i].key)] == items[i].binding)
  }

  lemma {:induction false} RowsStay(db: Db, device: DeviceId, items: seq<Item>, id: PackageId)
    requires InsertAll(db, device, items).Some? && id in db.packages
    ensures var db' := InsertAll(db, device, items).value; id in db'.packages && db'.packages[id] == db.packages[id]
    decreases |items|
  {
    if items != [] {
      RowsStay(Inserted(db, device, items[0]), device, items[1..], id);
    }
  }

  lemma {:induction false} RowIsWritten(db: Db, device: DeviceId, items: seq<Item>, i: nat)
    requires InsertAll(db, device, items).Some? && i < |items|
    ensures var db' := InsertAll(db, device, items).value;
            items[i].id in db'.packages && IsRow(db'.packages[items[i].id], device, items[i])
    decreases |items|
  {
    if i == 0 {
      RowsStay(Inserted(db, device, items[0]), device, items[1..], items[0].id);
    } else {
      RowIsWritten(Inserted(db, device, items[0]), device, items[1..], i - 1);
    }
  }

  lemma {:induction false} NoOtherRow(db: Db, device: DeviceId, items: seq<Item>, id: PackageId)
    requires InsertAll(db, device, items).Some? && id in InsertAll(db, device, items).value.packages
    ensures id in db.packages || exists i :: 0 <= i < |items| && items[i].id == id
    decreases |items|
  {
    if items != [] {
      NoOtherRow(Inserted(db, device, items[0]), device, items[1..], id);
      if i :| 0 <= i < |items[1..]| && items[1..][i].id == id {
        assert items[i + 1].id == id;
      } else if id !in db.packages {
        assert items[0].id == id;
      }
    }
  }

  lemma RowsAreWritten(db: Db, device: DeviceId, items: seq<Item>)
    requires InsertAll(db, device, items).Some?
    ensures RowsWritten(db, InsertAll(db, device, items).value, device, items)
  {
    var db' := InsertAll(db, device, items).value;
    forall id | id in db.packages ensures id in db'.packages && db'.packages[id] == db.packages[id] {
      RowsStay(db, device, items, id);
    }
    forall i | 0 <= i < |items|
      ensures items[i].id in db'.packages && IsRow(db'.packages[items[i].id], device, items[i])
    {
      RowIsWritten(db, device, items, i);
    }
    forall id | id in db'.packages ensures id in db.packages || exists i :: 0 <= i < |items| && items[i].id == id {
      NoOtherRow(db, device, items, id);
    }
  }

  lemma {:induction false} CredentialsAreWritten(db: Db, device: DeviceId, items: seq<Item>)
    requires InsertAll(db, device, items).Some?
    ensures CredentialsWritten(db, InsertAll(db, device, items).value, device, items)
    decreases |items|
  {
    if items != [] {
      var item, rest, db' := items[0], items[1..], Inserted(db, device, items[0]);
      var done := InsertAll(db, device, items).value;
      CredentialsAreWritten(db', device, rest);
      forall i | 0 <= i < |items| ensures i == 0 || items[i] == rest[i - 1] {}
      forall c | c in done.credentials
        ensures c in db.credentials || (c.device == device && exists i :: 0 <= i < |items| && items[i].key == c.key)
      {
        if c !in db'.credentials {
          var i :| 0 <= i < |rest| && rest[i].key == c.key;
          assert items[i + 1].key == c.key;
        } else if c !in db.credentials {
          assert items[0].key == c.key;
        }
      }
      forall c: Credential | c.device == device && exists i :: 0 <= i < |items| && items[i].key == c.key
        ensures c in done.credentials
      {
        var i :| 0 <= i < |items| && items[i].key == c.key;
        if i == 0 {
          assert c in db'.credentials;
        } else {
          assert rest[i - 1].key == c.key;
        }
      }
      forall i | 0 <= i < |items| && Credential(device, items[i].key) !in db.credentials
                 && (forall j :: 0 <= j < i ==> items[j].key != items[i].key)
        ensures done.credentials[Credential(device, items[i].key)] == items[i].binding
      {
        if i > 0 {
          assert rest[i - 1] == items[i] && items[0].key != items[i].key;
          forall j | 0 <= j < i - 1 ensures rest[j].key != rest[i - 1].key {
            assert rest[j] == items[j + 1];
          }
        }
      }
    }
  }

  /** What a registration writes; a refused one writes at most what compaction does. */
  lemma PostWrites(db: Db, device: DeviceId, verified: bool, items: seq<Item>, now: Time)
    ensures var db', stock := Posted(db, device, verified, items, now), Compacted(db, now);
            if PostProblem(db, device, verified, items, now) == None then
              RowsWritten(stock, db', device, items) && CredentialsWritten(stock, db', device, items)
            else db' == if (|items| == 1 || |items| == 2) && verified then stock else db
  {
    if PostProblem(db, device, verified, items, now) == None {
      RowsAreWritten(Compacted(db, now), device, items);
      CredentialsAreWritten(Compacted(db, now), device, items);
    }
  }

  // ---------------------------------------------------------------- what a claim hands out

  /** The package is in stock and the first to expire; of several, the one with the least id. */
  ghost predicate FirstToExpire(db: Db, target: DeviceId, now: Time, id: PackageId) {
    && id in Stock(db, target, now)
    && forall other :: other in Stock(db, target, now) && other != id ==>
         db.packages[id].expiresAt < db.packages[other].expiresAt
         || (db.packages[id].expiresAt == db.packages[other].expiresAt && id < other)
  }

  /**
   A claim is answered with the first package to expire, as it was registered, and marks it with the time and the
   claimant and deletes its bytes; there is none exactly when nothing is in stock.
   */
  lemma ClaimedExactly(db: Db, claimant: DeviceId, target: DeviceId, now: Time)
    requires Inv(db)
    ensures match ClaimReply(db, target, true, now)
            case Claimed(id, package) =>
              && FirstToExpire(db, target, now, id) && package == db.packages[id] && package.body == package.hash
              && ClaimedDb(db, claimant, target, true, now)
                 == Db(Compacted(db, now).packages[id := Package(
                         package.device, package.key, package.binding, [], package.hash, package.expiresAt, Some(now),
                         Some(claimant))],
                       db.credentials)
            case reply =>
              && reply == Failed(NoPackage) && Stock(db, target, now) == {}
              && ClaimedDb(db, claimant, target, true, now) == Compacted(db, now)
  {
    CountsMean(db, target, [], now);
    AvailableUnaffected(db, target, now, now);
    ClaimTakesEarliest(db, target, now);
  }

  /** Nothing is handed out and nothing changes when the target is not available. */
  lemma UnavailableTarget(db: Db, claimant: DeviceId, target: DeviceId, now: Time)
    ensures ClaimReply(db, target, false, now) == Failed(TargetUnavailable)
    ensures ClaimedDb(db, claimant, target, false, now) == db
  {}
}
