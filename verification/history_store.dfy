/** The transfer tables as the server updates them. */
module HistoryStore {
  import opened Common
  import opened HistoryTransfer
  import opened HistoryTheorems

  class Store {
    var transfers: map<TransferId, Transfer>
    var chunks: map<ChunkKey, Blob>

    function Value(): Db
      reads this
    {
      Db(transfers, chunks)
    }

    ghost predicate Valid()
      reads this
    {
      Inv(Value())
    }

    constructor ()
      ensures Valid() && Value() == Empty()
    {
      transfers, chunks := map[], map[];
    }

    /** DELETE FROM history_recovery_transfer_chunks WHERE transfer_id = ? */
    method DeleteChunks(id: TransferId)
      modifies this`chunks
      ensures chunks == map k | k in old(chunks) && k.transfer != id :: old(chunks)[k]
    {
      chunks := map k | k in chunks && k.transfer != id :: chunks[k];
    }

    /** The two statements that end a transfer. */
    method EndOne(id: TransferId, status: Status)
      requires id in transfers
      modifies this
      ensures Value() == Ended(old(Value()), {id}, status)
    {
      DeleteChunks(id);
      transfers := transfers[id := transfers[id].(status := status)];
    }

    /** The loop that ends the transfers of a list one by one. */
    method EndEach(ids: set<TransferId>, status: Status)
      requires ids <= transfers.Keys
      modifies this
      ensures Value() == Ended(old(Value()), ids, status)
    {
      var rest := ids;
      assert Value() == Ended(Value(), {}, status);
      while rest != {}
        invariant rest <= ids && transfers.Keys == old(transfers).Keys
        invariant Value() == Ended(old(Value()), ids - rest, status)
        decreases rest
      {
        var id :| id in rest;
        EndedMore(old(Value()), ids - rest, id, status);
        EndOne(id, status);
        assert ids - rest + {id} == ids - (rest - {id});
        rest := rest - {id};
      }
      assert ids - rest == ids;
    }

    static lemma EndedMore(db: Db, ids: set<TransferId>, id: TransferId, status: Status)
      ensures Ended(Ended(db, ids, status), {id}, status) == Ended(db, ids + {id}, status)
    {}

    method End(ids: set<TransferId>, status: Status)
      requires Valid() && ids <= transfers.Keys && Terminal(status)
      modifies this
      ensures Valid() && Value() == Ended(old(Value()), ids, status)
    {
      EndedKeepsInv(Value(), ids, status);
      EndEach(ids, status);
    }

    method Compact(now: Time)
      requires Valid()
      modifies this
      ensures Valid() && Value() == Compacted(old(Value()), now)
    {
      var expired: set<TransferId> := set id | id in transfers && Active(transfers[id]) && transfers[id].expiresAt <= now;
      assert expired == ExpirableIds(Value(), now);
      End(expired, Expired);
    }

    method CancelActive(scope: Scope)
      requires Valid()
      modifies this
      ensures Valid() && Value() == Step(old(Value()), CancelAllOp(scope))
    {
      var ids: set<TransferId> := set id | id in transfers && Active(transfers[id]) && InScope(transfers[id], scope);
      assert ids == ScopeIds(Value(), scope);
      End(ids, Canceled);
    }

    method Create(id: TransferId, t: Terms, available: bool, now: Time) returns (r: Reply)
      requires Valid()
      modifies this
      ensures Valid() && Value() == Step(old(Value()), CreateOp(id, t, available, now))
      ensures r == CreateReply(Compacted(old(Value()), now), id, t, available)
    {
      Compact(now);
      CreateKeepsInv(Value(), id, t, available, now);
      if !TermsOk(t) {
        return Failed(InvalidTransfer);
      }
      if !available {
        return Failed(DestinationUnavailable);
      }
      if id in transfers {
        return if transfers[id].terms == t then Existing else Failed(TransferConflict);
      }
      var active := exists other :: other in transfers && Blocks(Value(), other, t);
      if active {
        return Failed(TransferLimit);
      }
      transfers := transfers[id := Transfer(t, Uploading, 0, 0, now + 7 * DAY)];
      return Created;
    }

    method StoreChunk(id: TransferId, user: UserId, device: DeviceId, index: nat, body: Blob, digestOk: bool)
      returns (r: Reply)
      modifies this
      ensures Value() == PutDb(old(Value()), id, user, device, index, body, digestOk)
      ensures r == PutReply(old(Value()), id, user, device, index, body, digestOk)
    {
      if !Owns(Value(), id, user, device, false) {
        return Failed(NotFound);
      }
      var t := transfers[id];
      if t.status != Uploading || index >= t.terms.chunks || |body| < 1 || |body| > MAX_CHUNK_BYTES {
        return Failed(InvalidChunk);
      }
      if !digestOk {
        return Failed(DigestMismatch);
      }
      var key := ChunkKey(id, index);
      if key in chunks {
        return if chunks[key] == body then Existing else Failed(ChunkConflict);
      }
      if t.uploadedBytes + |body| > t.terms.bytes {
        return Failed(SizeExceeded);
      }
      chunks := chunks[key := body];
      transfers := transfers[id := t.(uploadedChunks := t.uploadedChunks + 1, uploadedBytes := t.uploadedBytes + |body|)];
      return Created;
    }

    method PutChunk(id: TransferId, user: UserId, device: DeviceId, index: nat, body: Blob, digestOk: bool, now: Time)
      returns (r: Reply)
      requires Valid()
      modifies this
      ensures Valid() && Value() == Step(old(Value()), PutOp(id, user, device, index, body, digestOk, now))
      ensures r == PutReply(Compacted(old(Value()), now), id, user, device, index, body, digestOk)
    {
      Compact(now);
      PutKeepsInv(Value(), id, user, device, index, body, digestOk);
      r := StoreChunk(id, user, device, index, body, digestOk);
    }

    /** COUNT(*) and SUM(size_bytes) over the stored chunks of a transfer, row by row. */
    method Totals(id: TransferId) returns (count: nat, bytes: nat)
      ensures count == |Indices(chunks, id)| && bytes == StoredBytes(chunks, id)
    {
      count, bytes := 0, 0;
      var rest: set<nat> := Indices(chunks, id);
      ghost var seen: set<nat> := {};
      while rest != {}
        invariant seen !! rest && seen + rest == Indices(chunks, id)
        invariant count == |seen| && bytes == SizeSum(chunks, id, seen)
        decreases rest
      {
        var i :| i in rest;
        IndexIn(chunks, id, i);
        count, bytes := count + 1, bytes + |chunks[ChunkKey(id, i)]|;
        SizeSumWithout(chunks, id, seen + {i}, i);
        assert seen + {i} - {i} == seen;
        seen, rest := seen + {i}, rest - {i};
      }
      assert seen == Indices(chunks, id);
    }

    method Finalize(id: TransferId, user: UserId, device: DeviceId, now: Time) returns (r: Reply)
      requires Valid()
      modifies this
      ensures Valid() && Value() == Step(old(Value()), FinalizeOp(id, user, device, now))
      ensures r == FinalizeReply(Compacted(old(Value()), now), id, user, device)
    {
      Compact(now);
      FinalizeKeepsInv(Value(), id, user, device, now);
      if !Owns(Value(), id, user, device, false) {
        return Failed(NotFound);
      }
      var t := transfers[id];
      if t.status == Ready {
        return AlreadyReady;
      }
      if t.status != Uploading {
        return Failed(NotUploading);
      }
      var count, bytes := Totals(id);
      if count != t.terms.chunks || bytes != t.terms.bytes {
        return Failed(Incomplete);
      }
      transfers := transfers[id := t.(status := Ready, expiresAt := now + 30 * DAY)];
      return Finalized;
    }

    method GetChunk(id: TransferId, user: UserId, device: DeviceId, index: nat, now: Time) returns (r: Reply)
      requires Valid()
      modifies this
      ensures Valid() && Value() == Step(old(Value()), GetOp(id, user, device, index, now))
      ensures r == GetReply(Compacted(old(Value()), now), id, user, device, index)
    {
      Compact(now);
      if !Owns(Value(), id, user, device, true) {
        return Failed(NotFound);
      }
      if transfers[id].status != Ready || index >= transfers[id].terms.chunks || ChunkKey(id, index) !in chunks {
        return Failed(NotFound);
      }
      return Served(chunks[ChunkKey(id, index)]);
    }

    method Consume(id: TransferId, user: UserId, device: DeviceId, now: Time) returns (r: Reply)
      requires Valid()
      modifies this
      ensures Valid() && Value() == Step(old(Value()), ConsumeOp(id, user, device, now))
      ensures r == ConsumeReply(Compacted(old(Value()), now), id, user, device)
    {
      Compact(now);
      if !Owns(Value(), id, user, device, true) {
        return Failed(NotFound);
      }
      if transfers[id].status == Consumed {
        return AlreadyConsumed;
      }
      if transfers[id].status != Ready {
        return Failed(NotReady);
      }
      End({id}, Consumed);
      return Taken;
    }

    method Cancel(id: TransferId, user: UserId, device: DeviceId, now: Time) returns (r: Reply)
      requires Valid()
      modifies this
      ensures Valid() && Value() == Step(old(Value()), CancelOp(id, user, device, now))
      ensures r == CancelReply(Compacted(old(Value()), now), id, user, device)
    {
      Compact(now);
      if !Owns(Value(), id, user, device, false) {
        return Failed(NotFound);
      }
      if transfers[id].status == Canceled {
        return AlreadyCanceled;
      }
      if transfers[id].status != Uploading {
        return Failed(NotCancelable);
      }
      End({id}, Canceled);
      return CanceledNow;
    }
  }
}
