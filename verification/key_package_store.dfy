/** The KeyPackage tables as the server updates them. */
module KeyPackageStore {
  import opened Common
  import opened KeyPackages
  import opened KeyPackageTheorems

  class Store {
    var packages: map<PackageId, Package>
    var credentials: map<Credential, Signature>

    function Value(): Db
      reads this
    {
      Db(packages, credentials)
    }

    ghost predicate Valid()
      reads this
    {
      Inv(Value())
    }

    constructor ()
      ensures Valid() && Value() == Empty()
    {
      packages, credentials := map[], map[];
    }

    method Compact(now: Time)
      modifies this`packages
      ensures Value() == Compacted(old(Value()), now)
    {
      packages := map id | id in packages :: CompactedRow(packages[id], now);
    }

    /** The loop that validates the submitted packages one by one. */
    method Validate(items: seq<Item>, now: Time) returns (problem: Option<Problem>)
      ensures problem == ItemsProblem(items, now)
    {
      for i := 0 to |items|
        invariant ItemsProblem(items, now) == ItemsProblem(items[i..], now)
      {
        var item := items[i];
        if item.ciphersuite != 1 || item.expiresAt < now + 5 * MINUTE || item.expiresAt > now + 30 * DAY {
          return Some(InvalidPackage);
        }
        if |item.body| < 64 || |item.body| > 65536 {
          return Some(InvalidPackage);
        }
        if !item.bound {
          return Some(NotBound);
        }
        assert items[i..][1..] == items[i + 1..];
      }
      return None;
    }

    /** The inserts of the transaction; when one fails, everything is put back. */
    method InsertItems(device: DeviceId, items: seq<Item>) returns (ok: bool)
      modifies this
      ensures ok <==> InsertAll(old(Value()), device, items).Some?
      ensures Value() == if ok then InsertAll(old(Value()), device, items).value else old(Value())
    {
      var savedPackages, savedCredentials := packages, credentials;
      for i := 0 to |items|
        invariant InsertAll(old(Value()), device, items) == InsertAll(Value(), device, items[i..])
      {
        var item := items[i];
        assert items[i..] == [item] + items[i + 1..];
        if !Insertable(Value(), item) {
          packages, credentials := savedPackages, savedCredentials;
          return false;
        }
        var c := Credential(device, item.key);
        if c !in credentials {
          credentials := credentials[c := item.binding];
        }
        packages := packages[item.id := RowOf(device, item)];
      }
      return true;
    }

    method AddAll(device: DeviceId, items: seq<Item>, now: Time) returns (r: Reply)
      modifies this
      ensures match StockProblem(old(Value()), device, items, now)
        case Some(problem) => r == Failed(problem) && Value() == old(Value())
        case None => r == Registered(|items|) && Value() == InsertAll(old(Value()), device, items).value
    {
      if |Available(Value(), device, now)| + |items| > MAX_AVAILABLE {
        return Failed(PackageLimit);
      }
      if |Total(Value(), device)| + |items| > MAX_TOTAL {
        return Failed(HistoryLimit);
      }
      if |Held(Value(), device)| + |NewKeys(Value(), device, items)| > MAX_CREDENTIALS {
        return Failed(CredentialLimit);
      }
      var ok := InsertItems(device, items);
      return if ok then Registered(|items|) else Failed(Duplicate);
    }

    method Post(device: DeviceId, verified: bool, items: seq<Item>, now: Time) returns (r: Reply)
      requires Valid()
      modifies this
      ensures Valid() && Value() == Step(old(Value()), PostOp(device, verified, items, now))
      ensures r == PostReply(old(Value()), device, verified, items, now)
    {
      PostKeepsInv(Value(), device, verified, items, now);
      if |items| < 1 || |items| > 2 {
        return Failed(WrongCount);
      }
      if !verified {
        return Failed(YuidRequired);
      }
      Compact(now);
      var problem := Validate(items, now);
      if problem.Some? {
        return Failed(problem.value);
      }
      r := AddAll(device, items, now);
    }

    /** SELECT ... ORDER BY expires_at ASC, id ASC LIMIT 1 */
    method Earliest(device: DeviceId, now: Time) returns (first: Option<PackageId>)
      ensures match first
        case Some(id) => IsChoice(Value(), device, now, id)
        case None => Available(Value(), device, now) == {}
    {
      first := None;
      var rest := packages.Keys;
      while rest != {}
        invariant rest <= packages.Keys
        invariant first.Some? ==> first.value in Available(Value(), device, now)
        invariant forall id :: id in Available(Value(), device, now) && id !in rest ==>
                    first.Some? && ComesFirst(Value(), first.value, id)
        decreases rest
      {
        var id :| id in rest;
        if IsAvailable(packages[id], device, now) && (first.None? || !ComesFirst(Value(), first.value, id)) {
          first := Some(id);
        }
        rest := rest - {id};
      }
    }

    method Take(claimant: DeviceId, target: DeviceId, now: Time) returns (r: Reply)
      modifies this`packages
      ensures match r
        case Claimed(id, package) =>
          && IsChoice(old(Value()), target, now, id) && package == old(packages)[id]
          && packages == old(packages)[id := package.(claimedAt := Some(now), claimedBy := Some(claimant), body := [])]
        case _ => r == Failed(NoPackage) && Available(old(Value()), target, now) == {} && packages == old(packages)
    {
      var first := Earliest(target, now);
      if first.None? {
        return Failed(NoPackage);
      }
      var package := packages[first.value];
      packages := packages[first.value := package.(claimedAt := Some(now), claimedBy := Some(claimant), body := [])];
      return Claimed(first.value, package);
    }

    method Claim(claimant: DeviceId, target: DeviceId, targetOk: bool, now: Time) returns (r: Reply)
      requires Valid()
      modifies this`packages
      ensures Valid() && Value() == Step(old(Value()), ClaimOp(claimant, target, targetOk, now))
      ensures r == ClaimReply(old(Value()), target, targetOk, now)
    {
      ClaimKeepsInv(Value(), claimant, target, targetOk, now);
      if !targetOk {
        return Failed(TargetUnavailable);
      }
      Compact(now);
      r := Take(claimant, target, now);
      if r.Claimed? {
        ChoiceIsClaimed(old(Value()), target, now, r.id);
      }
    }
  }
}
