/**
 The stock of MLS KeyPackages of every device. The hash of a package is modelled as the package
 bytes themselves, an injective stand-in for SHA-256.
 */
module KeyPackages {
  import opened Common

  type PackageId = nat
  type DeviceId = nat
  type Time = nat
  type Blob = seq<nat>
  type SignatureKey = nat
  type Signature = nat

  const MINUTE: nat := 60 * 1000
  const DAY: nat := 24 * 60 * MINUTE
  const MAX_AVAILABLE: nat := 100
  const MAX_TOTAL: nat := 10000
  const MAX_CREDENTIALS: nat := 8

  datatype Package = Package(
    device: DeviceId, key: SignatureKey, binding: Signature, body: Blob, hash: Blob,
    expiresAt: Time, claimedAt: Option<Time>, claimedBy: Option<DeviceId>)

  datatype Credential = Credential(device: DeviceId, key: SignatureKey)

  datatype Db = Db(packages: map<PackageId, Package>, credentials: map<Credential, Signature>)

  /** One submitted package; `bound` says whether its credential is authorized by the account's YUID. */
  datatype Item = Item(
    id: PackageId, ciphersuite: nat, key: SignatureKey, binding: Signature, body: Blob, expiresAt: Time, bound: bool)

  datatype Problem =
    | WrongCount
    | YuidRequired
    | InvalidPackage
    | NotBound
    | PackageLimit
    | HistoryLimit
    | CredentialLimit
    | Duplicate
    | TargetUnavailable
    | NoPackage

  datatype Reply = Registered(count: nat) | Claimed(id: PackageId, package: Package) | Failed(problem: Problem)

  // ---------------------------------------------------------------- expiry

  function CompactedRow(p: Package, now: Time): Package {
    if p.expiresAt <= now && p.body != []
    then p.(body := [], claimedAt := if p.claimedAt.Some? then p.claimedAt else Some(p.expiresAt))
    else p
  }

  /** `compactExpiredMlsKeyPackages` */
  function Compacted(db: Db, now: Time): Db {
    db.(packages := map id | id in db.packages :: CompactedRow(db.packages[id], now))
  }

  predicate IsAvailable(p: Package, device: DeviceId, now: Time) {
    p.device == device && p.claimedAt.None? && p.expiresAt > now
  }

  function Available(db: Db, device: DeviceId, now: Time): set<PackageId> {
    set id | id in db.packages && IsAvailable(db.packages[id], device, now)
  }

  function Total(db: Db, device: DeviceId): set<PackageId> {
    set id | id in db.packages && db.packages[id].device == device
  }

  /** The credentials a device holds. */
  function Held(db: Db, device: DeviceId): set<SignatureKey> {
    set c | c in db.credentials && c.device == device :: c.key
  }

  // ---------------------------------------------------------------- registering

  function ItemProblem(item: Item, now: Time): Option<Problem> {
    if item.ciphersuite != 1 || item.expiresAt < now + 5 * MINUTE || item.expiresAt > now + 30 * DAY
       || |item.body| < 64 || |item.body| > 65536
    then Some(InvalidPackage)
    else if !item.bound then Some(NotBound)
    else None
  }

  function ItemsProblem(items: seq<Item>, now: Time): Option<Problem> {
    if items == [] then None
    else if ItemProblem(items[0], now).Some? then ItemProblem(items[0], now)
    else ItemsProblem(items[1..], now)
  }

  function NewKeys(db: Db, device: DeviceId, items: seq<Item>): set<SignatureKey> {
    set i | 0 <= i < |items| && items[i].key !in Held(db, device) :: items[i].key
  }

  function RowOf(device: DeviceId, item: Item): Package {
    Package(device, item.key, item.binding, item.body, item.body, item.expiresAt, None, None)
  }

  /** The PRIMARY KEY and the UNIQUE hash column. */
  predicate Insertable(db: Db, item: Item) {
    item.id !in db.packages && forall id :: id in db.packages ==> db.packages[id].hash != item.body
  }

  /** INSERT OR IGNORE of the credential, then INSERT of the package. */
  function Inserted(db: Db, device: DeviceId, item: Item): Db {
    var c := Credential(device, item.key);
    Db(db.packages[item.id := RowOf(device, item)],
       if c in db.credentials then db.credentials else db.credentials[c := item.binding])
  }

  /** All inserts, or nothing when one of them violates a constraint. */
  function InsertAll(db: Db, device: DeviceId, items: seq<Item>): Option<Db>
    decreases |items|
  {
    if items == [] then Some(db)
    else if !Insertable(db, items[0]) then None
    else InsertAll(Inserted(db, device, items[0]), device, items[1..])
  }

  /** The checks that need the tables; `db` is compacted. */
  function StockProblem(db: Db, device: DeviceId, items: seq<Item>, now: Time): Option<Problem> {
    if |Available(db, device, now)| + |items| > MAX_AVAILABLE then Some(PackageLimit)
    else if |Total(db, device)| + |items| > MAX_TOTAL then Some(HistoryLimit)
    else if |Held(db, device)| + |NewKeys(db, device, items)| > MAX_CREDENTIALS then Some(CredentialLimit)
    else if InsertAll(db, device, items).None? then Some(Duplicate)
    else None
  }

  predicate PostEntered(items: seq<Item>, verified: bool) {
    1 <= |items| <= 2 && verified
  }

  function PostReply(db: Db, device: DeviceId, verified: bool, items: seq<Item>, now: Time): Reply {
    if !(1 <= |items| <= 2) then Failed(WrongCount)
    else if !verified then Failed(YuidRequired)
    else if ItemsProblem(items, now).Some? then Failed(ItemsProblem(items, now).value)
    else
      var problem := StockProblem(Compacted(db, now), device, items, now);
      if problem.Some? then Failed(problem.value) else Registered(|items|)
  }

  function Posted(db: Db, device: DeviceId, verified: bool, items: seq<Item>, now: Time): Db {
    if !PostEntered(items, verified) then db
    else if PostReply(db, device, verified, items, now).Registered?
    then InsertAll(Compacted(db, now), device, items).value
    else Compacted(db, now)
  }

  // ---------------------------------------------------------------- claiming

  /** ORDER BY expires_at ASC, id ASC */
  predicate ComesFirst(db: Db, a: PackageId, b: PackageId)
    requires a in db.packages && b in db.packages
  {
    db.packages[a].expiresAt < db.packages[b].expiresAt
    || (db.packages[a].expiresAt == db.packages[b].expiresAt && a <= b)
  }

  ghost predicate IsChoice(db: Db, device: DeviceId, now: Time, id: PackageId) {
    id in Available(db, device, now) && forall other :: other in Available(db, device, now) ==> ComesFirst(db, id, other)
  }

  ghost function ClaimReply(db: Db, target: DeviceId, targetOk: bool, now: Time): Reply {
    if !targetOk then Failed(TargetUnavailable)
    else
      var stock := Compacted(db, now);
      if id :| IsChoice(stock, target, now, id) then Claimed(id, stock.packages[id]) else Failed(NoPackage)
  }

  ghost function ClaimedDb(db: Db, claimant: DeviceId, target: DeviceId, targetOk: bool, now: Time): Db {
    match ClaimReply(db, target, targetOk, now)
    case Claimed(id, package) =>
      Compacted(db, now).(packages := Compacted(db, now).packages[id :=
        package.(claimedAt := Some(now), claimedBy := Some(claimant), body := [])])
    case _ => if targetOk then Compacted(db, now) else db
  }

  datatype Op =
    | PostOp(device: DeviceId, verified: bool, items: seq<Item>, now: Time)
    | ClaimOp(claimant: DeviceId, target: DeviceId, targetOk: bool, now: Time)
    | CountOp(now: Time)

  ghost function Step(db: Db, op: Op): Db {
    match op
    case PostOp(device, verified, items, now) => Posted(db, device, verified, items, now)
    case ClaimOp(claimant, target, targetOk, now) => ClaimedDb(db, claimant, target, targetOk, now)
    case CountOp(now) => Compacted(db, now)
  }

  ghost function Run(db: Db, ops: seq<Op>): Db
    decreases |ops|
  {
    if ops == [] then db else Step(Run(db, ops[..|ops| - 1]), ops[|ops| - 1])
  }

  function Empty(): Db {
    Db(map[], map[])
  }
}
