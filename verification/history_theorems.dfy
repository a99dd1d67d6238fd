/** Byte and chunk conservation, completeness of finished transfers, and their life cycle. */
module HistoryTheorems {
  import opened Common
  import opened HistoryTransfer

  // ---------------------------------------------------------------- sums over chunks

  lemma {:induction false} SizeSumWithout(chunks: map<ChunkKey, Blob>, id: TransferId, indices: set<nat>, x: nat)
    requires indices <= Indices(chunks, id) && x in indices
    ensures SizeSum(chunks, id, indices) == |chunks[ChunkKey(id, x)]| + SizeSum(chunks, id, indices - {x})
    decreases |indices|
  {
    var i :| i in indices && SizeSum(chunks, id, indices)
                             == |chunks[ChunkKey(id, i)]| + SizeSum(chunks, id, indices - {i});
    if i != x {
      SizeSumWithout(chunks, id, indices - {i}, x);
      SizeSumWithout(chunks, id, indices - {x}, i);
      assert indices - {i} - {x} == indices - {x} - {i};
    }
  }

  lemma {:induction false} SizeSumFrame(
    a: map<ChunkKey, Blob>, b: map<ChunkKey, Blob>, id: TransferId, indices: set<nat>)
    requires indices <= Indices(a, id) && indices <= Indices(b, id)
    requires forall i :: i in indices ==> a[ChunkKey(id, i)] == b[ChunkKey(id, i)]
    ensures SizeSum(a, id, indices) == SizeSum(b, id, indices)
    decreases |indices|
  {
    if indices != {} {
      var i :| i in indices;
      SizeSumWithout(a, id, indices, i);
      SizeSumWithout(b, id, indices, i);
      SizeSumFrame(a, b, id, indices - {i});
    }
  }

  /** The chunks of one transfer are the same in two tables. */
  ghost predicate SameChunks(a: map<ChunkKey, Blob>, b: map<ChunkKey, Blob>, id: TransferId) {
    && Indices(a, id) == Indices(b, id)
    && forall i :: i in Indices(a, id) ==> a[ChunkKey(id, i)] == b[ChunkKey(id, i)]
  }

  lemma SameChunksFrom(a: map<ChunkKey, Blob>, b: map<ChunkKey, Blob>, id: TransferId)
    requires forall i: nat :: ChunkKey(id, i) in a <==> ChunkKey(id, i) in b
    requires forall i: nat :: ChunkKey(id, i) in a ==> a[ChunkKey(id, i)] == b[ChunkKey(id, i)]
    ensures SameChunks(a, b, id) && StoredBytes(a, id) == StoredBytes(b, id)
  {
    forall i: nat ensures i in Indices(a, id) <==> i in Indices(b, id) {
      IndexIn(a, id, i);
      IndexIn(b, id, i);
    }
    forall i | i in Indices(a, id) ensures a[ChunkKey(id, i)] == b[ChunkKey(id, i)] {
      IndexIn(a, id, i);
    }
    SizeSumFrame(a, b, id, Indices(a, id));
  }

  lemma IndexIn(chunks: map<ChunkKey, Blob>, id: TransferId, i: nat)
    ensures i in Indices(chunks, id) <==> ChunkKey(id, i) in chunks
  {
    if ChunkKey(id, i) in chunks {
      assert ChunkKey(id, i).index == i;
    }
  }

  lemma ChunkAdded(chunks: map<ChunkKey, Blob>, id: TransferId, index: nat, body: Blob)
    requires ChunkKey(id, index) !in chunks
    ensures var chunks' := chunks[ChunkKey(id, index) := body];
            && Indices(chunks', id) == Indices(chunks, id) + {index} && index !in Indices(chunks, id)
            && StoredBytes(chunks', id) == StoredBytes(chunks, id) + |body|
  {
    var chunks' := chunks[ChunkKey(id, index) := body];
    forall i: nat ensures i in Indices(chunks', id) <==> i in Indices(chunks, id) + {index} {
      IndexIn(chunks, id, i);
      IndexIn(chunks', id, i);
    }
    IndexIn(chunks, id, index);
    SizeSumWithout(chunks', id, Indices(chunks', id), index);
    assert Indices(chunks', id) - {index} == Indices(chunks, id);
    SizeSumFrame(chunks, chunks', id, Indices(chunks, id));
  }

  // ---------------------------------------------------------------- the invariant

  ghost predicate ChunkOk(db: Db, k: ChunkKey)
    requires k in db.chunks
  {
    && k.transfer in db.transfers && Active(db.transfers[k.transfer])
    && k.index < db.transfers[k.transfer].terms.chunks
    && 1 <= |db.chunks[k]| <= MAX_CHUNK_BYTES
  }

  ghost predicate TransferOk(db: Db, id: TransferId)
    requires id in db.transfers
  {
    var t := db.transfers[id];
    && TermsOk(t.terms)
    && (Active(t) ==>
          && t.uploadedChunks == |Indices(db.chunks, id)|
          && t.uploadedBytes == StoredBytes(db.chunks, id) <= t.terms.bytes)
    && (t.status == Ready ==> t.uploadedChunks == t.terms.chunks && t.uploadedBytes == t.terms.bytes)
  }

  ghost predicate ChunksOk(db: Db) {
    forall k :: k in db.chunks ==> ChunkOk(db, k)
  }

  ghost predicate TransfersOk(db: Db) {
    forall id :: id in db.transfers ==> TransferOk(db, id)
  }

  predicate Rivals(t: Transfer, u: Transfer) {
    Active(t) && Active(u) && t.terms.destination == u.terms.destination && t.terms.channel == u.terms.channel
  }

  /** At most one active transfer for a destination and channel. */
  ghost predicate OneActive(db: Db) {
    forall i, j :: i in db.transfers && j in db.transfers && Rivals(db.transfers[i], db.transfers[j]) ==> i == j
  }

  ghost predicate Inv(db: Db) {
    ChunksOk(db) && TransfersOk(db) && OneActive(db)
  }

  lemma EndedChunks(db: Db, ids: set<TransferId>, status: Status, id: TransferId)
    requires id !in ids
    ensures SameChunks(db.chunks, Ended(db, ids, status).chunks, id)
    ensures StoredBytes(db.chunks, id) == StoredBytes(Ended(db, ids, status).chunks, id)
  {
    SameChunksFrom(db.chunks, Ended(db, ids, status).chunks, id);
  }

  lemma EndedTransferOk(db: Db, ids: set<TransferId>, status: Status, id: TransferId)
    requires id in db.transfers && TransferOk(db, id) && !status.Uploading? && !status.Ready?
    ensures id in Ended(db, ids, status).transfers && TransferOk(Ended(db, ids, status), id)
  {
    if id !in ids {
      EndedChunks(db, ids, status, id);
    }
  }

  lemma EndedChunkOk(db: Db, ids: set<TransferId>, status: Status, k: ChunkKey)
    requires ChunksOk(db) && k in Ended(db, ids, status).chunks && !status.Uploading? && !status.Ready?
    ensures ChunkOk(Ended(db, ids, status), k)
  {
    assert ChunkOk(db, k);
  }

  lemma EndedOneActive(db: Db, ids: set<TransferId>, status: Status)
    requires OneActive(db) && !status.Uploading? && !status.Ready?
    ensures OneActive(Ended(db, ids, status))
  {}

  lemma EndedKeepsInv(db: Db, ids: set<TransferId>, status: Status)
    requires Inv(db) && !status.Uploading? && !status.Ready?
    ensures Inv(Ended(db, ids, status))
  {
    var db' := Ended(db, ids, status);
    forall id | id in db'.transfers ensures TransferOk(db', id) {
      EndedTransferOk(db, ids, status, id);
    }
    forall k | k in db'.chunks ensures ChunkOk(db', k) {
      EndedChunkOk(db, ids, status, k);
    }
    EndedOneActive(db, ids, status);
  }

  lemma CreateKeepsInv(db: Db, id: TransferId, t: Terms, available: bool, now: Time)
    requires Inv(db)
    ensures Inv(CreatedDb(db, id, t, available, now))
  {
    if CreateReply(db, id, t, available) == Created {
      var db' := CreatedDb(db, id, t, available, now);
      assert Indices(db.chunks, id) == {} by {
        forall k | k in db.chunks ensures k.transfer != id {
          assert ChunkOk(db, k);
        }
      }
      forall i | i in db'.transfers ensures TransferOk(db', i) {
        if i != id {
          assert TransferOk(db, i);
        }
      }
      forall k | k in db'.chunks ensures ChunkOk(db', k) {
        assert ChunkOk(db, k);
      }
      CreateKeepsOneActive(db, id, t, available, now);
    }
  }

  lemma CreateKeepsOneActive(db: Db, id: TransferId, t: Terms, available: bool, now: Time)
    requires OneActive(db) && CreateReply(db, id, t, available) == Created
    ensures OneActive(CreatedDb(db, id, t, available, now))
  {
    forall i | i in db.transfers && Active(db.transfers[i])
      ensures !(db.transfers[i].terms.destination == t.destination && db.transfers[i].terms.channel == t.channel)
    {
      assert !Blocks(db, i, t);
    }
  }

  lemma PutKeepsTransfers(db: Db, id: TransferId, user: UserId, device: DeviceId, index: nat, body: Blob, digestOk: bool)
    requires TransfersOk(db) && PutReply(db, id, user, device, index, body, digestOk) == Created
    ensures TransfersOk(PutDb(db, id, user, device, index, body, digestOk))
  {
    var db' := PutDb(db, id, user, device, index, body, digestOk);
    ChunkAdded(db.chunks, id, index, body);
    forall i | i in db'.transfers ensures TransferOk(db', i) {
      assert TransferOk(db, i);
      if i != id {
        SameChunksFrom(db.chunks, db'.chunks, i);
      }
    }
  }

  lemma PutKeepsChunks(db: Db, id: TransferId, user: UserId, device: DeviceId, index: nat, body: Blob, digestOk: bool)
    requires ChunksOk(db) && PutReply(db, id, user, device, index, body, digestOk) == Created
    ensures ChunksOk(PutDb(db, id, user, device, index, body, digestOk))
  {
    var db' := PutDb(db, id, user, device, index, body, digestOk);
    forall k | k in db'.chunks ensures ChunkOk(db', k) {
      if k != ChunkKey(id, index) {
        assert ChunkOk(db, k);
      }
    }
  }

  lemma PutKeepsOneActive(db: Db, id: TransferId, user: UserId, device: DeviceId, index: nat, body: Blob, digestOk: bool)
    requires OneActive(db) && PutReply(db, id, user, device, index, body, digestOk) == Created
    ensures OneActive(PutDb(db, id, user, device, index, body, digestOk))
  {}

  lemma PutKeepsInv(db: Db, id: TransferId, user: UserId, device: DeviceId, index: nat, body: Blob, digestOk: bool)
    requires Inv(db)
    ensures Inv(PutDb(db, id, user, device, index, body, digestOk))
  {
    if PutReply(db, id, user, device, index, body, digestOk) == Created {
      PutKeepsTransfers(db, id, user, device, index, body, digestOk);
      PutKeepsChunks(db, id, user, device, index, body, digestOk);
      PutKeepsOneActive(db, id, user, device, index, body, digestOk);
    }
  }

  lemma FinalizeKeepsInv(db: Db, id: TransferId, user: UserId, device: DeviceId, now: Time)
    requires Inv(db)
    ensures Inv(FinalizedDb(db, id, user, device, now))
  {
    var db' := FinalizedDb(db, id, user, device, now);
    if FinalizeReply(db, id, user, device) == Finalized {
      forall i | i in db'.transfers ensures TransferOk(db', i) {
        assert TransferOk(db, i);
      }
      forall k | k in db'.chunks ensures ChunkOk(db', k) {
        assert ChunkOk(db, k);
      }
    }
  }

  lemma StepKeepsInv(db: Db, op: Op)
    requires Inv(db)
    ensures Inv(Entered(db, op)) && Inv(Step(db, op))
  {
    if !op.CancelAllOp? {
      EndedKeepsInv(db, ExpirableIds(db, op.now), Expired);
    }
    var e := Entered(db, op);
    match op {
      case CreateOp(id, terms, available, now) => CreateKeepsInv(e, id, terms, available, now);
      case PutOp(id, user, device, index, body, digestOk, now) => PutKeepsInv(e, id, user, device, index, body, digestOk);
      case FinalizeOp(id, user, device, now) => FinalizeKeepsInv(e, id, user, device, now);
      case GetOp(id, user, device, index, now) =>
      case ConsumeOp(id, user, device, now) => EndedKeepsInv(e, {id}, Consumed);
      case CancelOp(id, user, device, now) => EndedKeepsInv(e, {id}, Canceled);
      case CancelAllOp(scope) => EndedKeepsInv(e, ScopeIds(e, scope), Canceled);
    }
  }

  /** The counters and sums agree with the stored chunks in every reachable state. */
  lemma {:induction false} RunKeepsInv(db: Db, ops: seq<Op>)
    requires Inv(db)
    ensures Inv(Run(db, ops))
  {
    if ops != [] {
      RunKeepsInv(db, ops[..|ops| - 1]);
      StepKeepsInv(Run(db, ops[..|ops| - 1]), ops[|ops| - 1]);
    }
  }

  /** A store that starts empty, and any requests. */
  lemma FromTheStart(ops: seq<Op>)
    ensures Inv(Run(Empty(), ops))
  {
    RunKeepsInv(Empty(), ops);
  }

  // ---------------------------------------------------------------- finished transfers are complete

  function UpTo(n: nat): (s: set<nat>)
    ensures forall i: nat :: i in s <==> i < n
  {
    if n == 0 then {} else UpTo(n - 1) + {n - 1}
  }

  lemma {:induction false} UpToCount(n: nat)
    ensures |UpTo(n)| == n
  {
    if n > 0 {
      UpToCount(n - 1);
    }
  }

  /** n different numbers below n are all the numbers below n. */
  lemma Pigeonhole(indices: set<nat>, n: nat)
    requires |indices| == n && forall i :: i in indices ==> i < n
    ensures indices == UpTo(n)
  {
    UpToCount(n);
    SubsetCount(indices, UpTo(n));
  }

  /** The chunks 0 to n-1 one after the other. */
  ghost function Assembled(chunks: map<ChunkKey, Blob>, id: TransferId, n: nat): Blob
    requires forall i: nat :: i < n ==> ChunkKey(id, i) in chunks
  {
    if n == 0 then [] else Assembled(chunks, id, n - 1) + chunks[ChunkKey(id, n - 1)]
  }

  lemma {:induction false} AssembledSize(chunks: map<ChunkKey, Blob>, id: TransferId, n: nat)
    requires forall i: nat :: i < n ==> ChunkKey(id, i) in chunks
    requires UpTo(n) <= Indices(chunks, id)
    ensures |Assembled(chunks, id, n)| == SizeSum(chunks, id, UpTo(n))
  {
    if n > 0 {
      assert UpTo(n - 1) == UpTo(n) - {n - 1};
      AssembledSize(chunks, id, n - 1);
      SizeSumWithout(chunks, id, UpTo(n), n - 1);
    }
  }

  /**
   A ready transfer holds exactly the chunks 0 to chunk_count - 1, and together they have exactly
   the declared number of bytes.
   */
  lemma ReadyIsComplete(db: Db, id: TransferId)
    requires Inv(db) && id in db.transfers && db.transfers[id].status == Ready
    ensures var n := db.transfers[id].terms.chunks;
            && Indices(db.chunks, id) == UpTo(n)
            && (forall i: nat :: i < n ==> ChunkKey(id, i) in db.chunks)
            && |Assembled(db.chunks, id, n)| == db.transfers[id].terms.bytes
  {
    var n := db.transfers[id].terms.chunks;
    assert TransferOk(db, id);
    forall i | i in Indices(db.chunks, id) ensures i < n {
      IndexIn(db.chunks, id, i);
      assert ChunkOk(db, ChunkKey(id, i));
    }
    Pigeonhole(Indices(db.chunks, id), n);
    forall i: nat | i < n ensures ChunkKey(id, i) in db.chunks {
      assert i in UpTo(n);
      IndexIn(db.chunks, id, i);
    }
    AssembledSize(db.chunks, id, n);
  }

  /** Its destination is served the chunk stored under every index below the number of chunks, and nothing else. */
  lemma ReadyIsServed(db: Db, id: TransferId, index: nat)
    requires Inv(db) && id in db.transfers && db.transfers[id].status == Ready
    ensures var t := db.transfers[id].terms;
            if index < t.chunks then
              ChunkKey(id, index) in db.chunks
              && GetReply(db, id, t.user, t.destination, index) == Served(db.chunks[ChunkKey(id, index)])
            else GetReply(db, id, t.user, t.destination, index) == Failed(NotFound)
  {
    ReadyIsComplete(db, id);
  }

  /** Finalizing succeeds exactly when every index was uploaded and the bytes add up. */
  lemma FinalizeExact(db: Db, id: TransferId)
    requires Inv(db) && id in db.transfers && db.transfers[id].status == Uploading
    ensures var t := db.transfers[id].terms;
            FinalizeReply(db, id, t.user, t.source) == Finalized
            <==> (forall i: nat :: i < t.chunks ==> ChunkKey(id, i) in db.chunks) && db.transfers[id].uploadedBytes == t.bytes
  {
    var n := db.transfers[id].terms.chunks;
    assert TransferOk(db, id);
    forall i | i in Indices(db.chunks, id) ensures i in UpTo(n) {
      IndexIn(db.chunks, id, i);
      assert ChunkOk(db, ChunkKey(id, i));
    }
    UpToCount(n);
    if |Indices(db.chunks, id)| == n {
      Pigeonhole(Indices(db.chunks, id), n);
      forall i: nat | i < n ensures ChunkKey(id, i) in db.chunks {
        assert i in UpTo(n);
        IndexIn(db.chunks, id, i);
      }
    }
    if forall i: nat :: i < n ==> ChunkKey(id, i) in db.chunks {
      forall i | i in UpTo(n) ensures i in Indices(db.chunks, id) {
        IndexIn(db.chunks, id, i);
      }
      assert Indices(db.chunks, id) == UpTo(n);
    }
  }

  // ---------------------------------------------------------------- the life cycle

  predicate Terminal(status: Status) {
    status.Consumed? || status.Canceled? || status.Expired?
  }

  /** The moves between the five states. */
  predicate Moves(a: Status, b: Status) {
    || a == b
    || (a == Uploading && (b == Ready || b == Canceled || b == Expired))
    || (a == Ready && (b == Consumed || b == Canceled || b == Expired))
  }

  /** What one request may do to a transfer and its chunks. */
  ghost predicate Progress(db: Db, db': Db, id: TransferId)
    requires id in db.transfers
  {
    && id in db'.transfers
    && db'.transfers[id].terms == db.transfers[id].terms
    && Moves(db.transfers[id].status, db'.transfers[id].status)
    && (Terminal(db.transfers[id].status) ==> db'.transfers[id] == db.transfers[id])
    && (db.transfers[id].status == Ready && db'.transfers[id].status == Ready ==>
          SameChunks(db.chunks, db'.chunks, id))
    && (Active(db'.transfers[id]) ==>
          forall i: nat :: ChunkKey(id, i) in db.chunks ==>
            ChunkKey(id, i) in db'.chunks && db'.chunks[ChunkKey(id, i)] == db.chunks[ChunkKey(id, i)])
  }

  lemma EndedProgress(db: Db, ids: set<TransferId>, status: Status, id: TransferId)
    requires id in db.transfers
    requires id in ids ==> !Terminal(db.transfers[id].status) && Moves(db.transfers[id].status, status) && Terminal(status)
    ensures Progress(db, Ended(db, ids, status), id)
  {
    if id !in ids {
      EndedChunks(db, ids, status, id);
    }
  }

  lemma PutProgress(db: Db, id: TransferId, user: UserId, device: DeviceId, index: nat, body: Blob, digestOk: bool, k: TransferId)
    requires k in db.transfers
    ensures Progress(db, PutDb(db, id, user, device, index, body, digestOk), k)
  {
    if k != id && PutReply(db, id, user, device, index, body, digestOk) == Created {
      SameChunksFrom(db.chunks, PutDb(db, id, user, device, index, body, digestOk).chunks, k);
    }
  }

  lemma HandledProgress(db: Db, op: Op, k: TransferId)
    requires k in db.transfers
    ensures Progress(db, Handled(db, op), k)
  {
    match op {
      case CreateOp(id, terms, available, now) =>
      case PutOp(id, user, device, index, body, digestOk, now) => PutProgress(db, id, user, device, index, body, digestOk, k);
      case FinalizeOp(id, user, device, now) =>
      case GetOp(id, user, device, index, now) =>
      case ConsumeOp(id, user, device, now) =>
        if ConsumeReply(db, id, user, device) == Taken {
          EndedProgress(db, {id}, Consumed, k);
        }
      case CancelOp(id, user, device, now) =>
        if CancelReply(db, id, user, device) == CanceledNow {
          EndedProgress(db, {id}, Canceled, k);
        }
      case CancelAllOp(scope) => EndedProgress(db, ScopeIds(db, scope), Canceled, k);
    }
  }

  ghost predicate Follows(db: Db, db': Db, id: TransferId)
    requires id in db.transfers
  {
    && id in db'.transfers && db'.transfers[id].terms == db.transfers[id].terms
    && (Terminal(db.transfers[id].status) ==> db'.transfers[id] == db.transfers[id])
    && (db.transfers[id].status == Ready ==> db'.transfers[id].status != Uploading)
    && (db.transfers[id].status == Ready && db'.transfers[id].status == Ready ==> SameChunks(db.chunks, db'.chunks, id))
    && (Active(db'.transfers[id]) ==>
          forall i: nat :: ChunkKey(id, i) in db.chunks ==>
            ChunkKey(id, i) in db'.chunks && db'.chunks[ChunkKey(id, i)] == db.chunks[ChunkKey(id, i)])
  }

  lemma ProgressFollows(a: Db, b: Db, c: Db, id: TransferId)
    requires id in a.transfers && Follows(a, b, id) && Progress(b, c, id)
    ensures Follows(a, c, id)
  {}

  lemma EnteredProgress(db: Db, op: Op, id: TransferId)
    requires id in db.transfers
    ensures Progress(db, Entered(db, op), id)
  {
    if !op.CancelAllOp? {
      EndedProgress(db, ExpirableIds(db, op.now), Expired, id);
    }
  }

  /**
   Over any run: the terms of a transfer never change, a consumed, canceled or expired transfer
   never changes at all, the chunks of a ready transfer never change, and an uploaded chunk stays
   what it is for as long as the transfer is active.
   */
  lemma {:induction false} LifeCycle(db: Db, ops: seq<Op>, id: TransferId)
    requires id in db.transfers
    ensures Follows(db, Run(db, ops), id)
  {
    if ops != [] {
      var earlier := ops[..|ops| - 1];
      var before, op := Run(db, earlier), ops[|ops| - 1];
      LifeCycle(db, earlier, id);
      EnteredProgress(before, op, id);
      ProgressFollows(db, before, Entered(before, op), id);
      HandledProgress(Entered(before, op), op, id);
      ProgressFollows(db, Entered(before, op), Step(before, op), id);
    }
  }

  /** A transfer that ended holds no chunks. */
  lemma TerminalIsEmpty(db: Db, id: TransferId)
    requires Inv(db) && id in db.transfers && Terminal(db.transfers[id].status)
    ensures Indices(db.chunks, id) == {}
  {
    forall k | k in db.chunks ensures k.transfer != id {
      assert ChunkOk(db, k);
    }
  }

  ghost predicate Takes(db: Db, op: Op, id: TransferId) {
    op.ConsumeOp? && op.id == id && ConsumeReply(Entered(db, op), id, op.user, op.device) == Taken
  }

  lemma {:induction false} RunSplit(db: Db, a: seq<Op>, b: seq<Op>)
    ensures Run(db, a + b) == Run(Run(db, a), b)
  {
    if b == [] {
      assert a + b == a;
    } else {
      RunSplit(db, a, b[..|b| - 1]);
      assert (a + b)[..|a + b| - 1] == a + b[..|b| - 1];
    }
  }

  /** A transfer is consumed at most once in any run. */
  lemma ConsumedOnce(db: Db, ops: seq<Op>, id: TransferId, i: nat, j: nat)
    requires i < j < |ops| && Takes(Run(db, ops[..i]), ops[i], id)
    ensures !Takes(Run(db, ops[..j]), ops[j], id)
  {
    var done := Run(db, ops[..i + 1]);
    Pieces(ops, i, j);
    assert id in done.transfers && done.transfers[id].status == Consumed;
    var rest := ops[i + 1..j];
    RunSplit(db, ops[..i + 1], rest);
    LifeCycle(done, rest, id);
    EnteredProgress(Run(db, ops[..j]), ops[j], id);
  }

  /** Nothing that is due is served: what survives the expiry at the start of a request expires later. */
  lemma NothingDueIsActive(db: Db, now: Time, id: TransferId)
    requires id in Compacted(db, now).transfers && Active(Compacted(db, now).transfers[id])
    ensures Compacted(db, now).transfers[id].expiresAt > now
    ensures db.transfers[id] == Compacted(db, now).transfers[id]
  {}

  /** Uploading the same chunk again is idempotent; uploading another one in its place is refused. */
  lemma ChunkUploadIsIdempotent(
    db: Db, id: TransferId, user: UserId, device: DeviceId, index: nat, body: Blob, other: Blob)
    requires PutReply(db, id, user, device, index, body, true) == Created && 1 <= |other| <= MAX_CHUNK_BYTES
    ensures var db' := PutDb(db, id, user, device, index, body, true);
            && PutDb(db', id, user, device, index, other, true) == db'
            && PutReply(db', id, user, device, index, other, true)
               == if other == body then Existing else Failed(ChunkConflict)
  {}
}
