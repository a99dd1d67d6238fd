/**
 The history transfers told from the columns of the two tables: which reply every request gets, what it writes,
 and that a download returns the bodies that were uploaded.
 */
module HistoryExact {
  import opened Checks
  import opened Common
  import opened HistoryTransfer
  import opened HistoryTheorems

  /** No requirement has refused the request when it gets this reply. */
  function Unless(done: Reply, reply: Reply): Option<Reply> {
    if reply == done then None else Some(reply)
  }

  // ---------------------------------------------------------------- ending transfers

  /** The one table of transfers is the other but for the status of these. */
  ghost predicate EndsOnly(db: Db, db': Db, ids: set<TransferId>, status: Status) {
    && db'.transfers.Keys == db.transfers.Keys
    && (forall id :: id in db.transfers ==>
          var t := db.transfers[id];
          db'.transfers[id] == if id in ids then Transfer(t.terms, status, t.uploadedChunks, t.uploadedBytes, t.expiresAt)
                               else t)
    && (forall k :: k in db'.chunks <==> k in db.chunks && k.transfer !in ids)
    && (forall k :: k in db'.chunks ==> db'.chunks[k] == db.chunks[k])
  }

  /** Every request first expires the transfers that are under way and due, and deletes their chunks. */
  lemma CompactedExactly(db: Db, now: Time)
    ensures EndsOnly(db, Compacted(db, now),
                     (set id | id in db.transfers && db.transfers[id].expiresAt <= now
                               && (db.transfers[id].status == Uploading || db.transfers[id].status == Ready)),
                     Expired)
  {
    assert ExpirableIds(db, now)
           == set id | id in db.transfers && db.transfers[id].expiresAt <= now
                       && (db.transfers[id].status == Uploading || db.transfers[id].status == Ready);
  }

  /** No request of a client meets a transfer that is due at its own time and still under way. */
  lemma RequestExpires(db: Db, op: Op, id: TransferId)
    requires !op.CancelAllOp? && id in db.transfers
    requires db.transfers[id].status == Uploading || db.transfers[id].status == Ready
    ensures id in Entered(db, op).transfers
    ensures Entered(db, op).transfers[id].status
            == if db.transfers[id].expiresAt <= op.now then Expired else db.transfers[id].status
    ensures db.transfers[id].expiresAt <= op.now ==>
              && id in Step(db, op).transfers && Step(db, op).transfers[id].status == Expired
              && forall k :: k in Step(db, op).chunks ==> k.transfer != id
  {
    CompactedExactly(db, op.now);
    HandledProgress(Entered(db, op), op, id);
    if db.transfers[id].expiresAt <= op.now {
      forall k | k in Step(db, op).chunks ensures k.transfer != id {
        NewChunk(db, op, k);
        if Uploads(db, op, k.transfer, k.index) {
          assert Entered(db, op).transfers[k.transfer].status == Uploading;
        } else {
          NotKept(db, op, k);
        }
      }
    }
  }

  lemma NotKept(db: Db, op: Op, k: ChunkKey)
    requires k in Step(db, op).chunks && !Uploads(db, op, k.transfer, k.index)
    ensures k in Entered(db, op).chunks
  {}

  /** A transfer is under way. */
  predicate Runs(t: Transfer) {
    t.status == Uploading || t.status == Ready
  }

  function FromOrTo(db: Db, device: DeviceId): set<TransferId> {
    set id | id in db.transfers && Runs(db.transfers[id])
             && (db.transfers[id].terms.source == device || db.transfers[id].terms.destination == device)
  }

  function OfTheUser(db: Db, user: UserId): set<TransferId> {
    set id | id in db.transfers && Runs(db.transfers[id]) && db.transfers[id].terms.user == user
  }

  /** Revoking a device ends the transfers under way from or to it. */
  lemma CanceledForDevice(db: Db, device: DeviceId)
    ensures EndsOnly(db, CanceledAll(db, OfDevice(device)), FromOrTo(db, device), Canceled)
  {
    assert ScopeIds(db, OfDevice(device)) == FromOrTo(db, device);
  }

  /** Removing a user ends those of the user. */
  lemma CanceledForUser(db: Db, user: UserId)
    ensures EndsOnly(db, CanceledAll(db, OfUser(user)), OfTheUser(db, user), Canceled)
  {
    assert ScopeIds(db, OfUser(user)) == OfTheUser(db, user);
  }

  // ---------------------------------------------------------------- creating

  /** Another device; a range with as many events at most; chunks that hold a byte each; a manifest of 64 KiB at most. */
  predicate TermsFit(t: Terms) {
    && t.destination != t.source
    && t.first >= 1 && t.last >= t.first && t.events >= 1 && t.first + t.events <= t.last + 1
    && t.chunks >= 1 && t.chunks <= 257 && t.bytes >= t.chunks && t.bytes <= 67116060
    && |t.manifest| >= 1 && |t.manifest| <= 65536
  }

  /** A transfer to the same device in the same channel is under way. */
  predicate UnderWay(db: Db, t: Terms) {
    exists id :: id in db.transfers
      && (db.transfers[id].status == Uploading || db.transfers[id].status == Ready)
      && db.transfers[id].terms.destination == t.destination && db.transfers[id].terms.channel == t.channel
  }

  function CreateRequirements(db: Db, id: TransferId, t: Terms, available: bool): seq<Check<Reply>> {
    [Check(TermsFit(t), Failed(InvalidTransfer)),
     Check(available, Failed(DestinationUnavailable)),
     Check(id in db.transfers ==> db.transfers[id].terms != t, Existing),
     Check(id !in db.transfers, Failed(TransferConflict)),
     Check(!UnderWay(db, t), Failed(TransferLimit))]
  }

  lemma UnderWayMeans(db: Db, t: Terms)
    ensures HasActive(db, t) <==> UnderWay(db, t)
  {
    if HasActive(db, t) {
      var id :| id in db.transfers && Blocks(db, id, t);
      assert db.transfers[id].status == Uploading || db.transfers[id].status == Ready;
    }
    if UnderWay(db, t) {
      var id :| id in db.transfers
        && (db.transfers[id].status == Uploading || db.transfers[id].status == Ready)
        && db.transfers[id].terms.destination == t.destination && db.transfers[id].terms.channel == t.channel;
      assert Blocks(db, id, t);
    }
  }

  /** A transfer is created exactly when all requirements are met; it may be uploaded for seven days. */
  lemma CreatedExactly(db: Db, id: TransferId, t: Terms, available: bool, now: Time)
    ensures Answers(CreateRequirements(db, id, t, available), Unless(Created, CreateReply(db, id, t, available)))
    ensures CreatedDb(db, id, t, available, now)
            == if CreateReply(db, id, t, available) == Created
               then Db(db.transfers[id := Transfer(t, Uploading, 0, 0, now + 604800000)], db.chunks) else db
  {
    UnderWayMeans(db, t);
    var r := CreateRequirements(db, id, t, available);
    InOrder5(r[0], r[1], r[2], r[3], r[4], Unless(Created, CreateReply(db, id, t, available)));
    assert r == [r[0], r[1], r[2], r[3], r[4]];
  }

  // ---------------------------------------------------------------- uploading

  predicate IsSource(db: Db, id: TransferId, user: UserId, device: DeviceId) {
    id in db.transfers && db.transfers[id].terms.user == user && db.transfers[id].terms.source == device
  }

  predicate IsDestination(db: Db, id: TransferId, user: UserId, device: DeviceId) {
    id in db.transfers && db.transfers[id].terms.user == user && db.transfers[id].terms.destination == device
  }

  /** What is asked of an upload whatever is stored under its index. */
  function UploadRequirements(
    db: Db, id: TransferId, user: UserId, device: DeviceId, index: nat, body: Blob, digestOk: bool): seq<Check<Reply>>
  {
    [Check(IsSource(db, id, user, device), Failed(NotFound)),
     Check(id in db.transfers ==> db.transfers[id].status == Uploading && index < db.transfers[id].terms.chunks
                                  && |body| >= 1 && |body| <= 262144, Failed(InvalidChunk)),
     Check(digestOk, Failed(DigestMismatch))]
  }

  /** And of what is stored. */
  function StoreRequirements(db: Db, id: TransferId, index: nat, body: Blob): seq<Check<Reply>> {
    [Check(ChunkKey(id, index) in db.chunks ==> db.chunks[ChunkKey(id, index)] != body, Existing),
     Check(ChunkKey(id, index) !in db.chunks, Failed(ChunkConflict)),
     Check(id in db.transfers ==> db.transfers[id].uploadedBytes + |body| <= db.transfers[id].terms.bytes,
           Failed(SizeExceeded))]
  }

  function UploadProblem(
    db: Db, id: TransferId, user: UserId, device: DeviceId, index: nat, body: Blob, digestOk: bool): Option<Reply>
  {
    var reply := PutReply(db, id, user, device, index, body, digestOk);
    if reply.Failed? && (reply.problem == NotFound || reply.problem == InvalidChunk || reply.problem == DigestMismatch)
    then Some(reply) else None
  }

  lemma UploadMeans(
    db: Db, id: TransferId, user: UserId, device: DeviceId, index: nat, body: Blob, digestOk: bool)
    ensures Answers(UploadRequirements(db, id, user, device, index, body, digestOk),
                    UploadProblem(db, id, user, device, index, body, digestOk))
  {
    var r := UploadRequirements(db, id, user, device, index, body, digestOk);
    InOrder3(r[0], r[1], r[2], UploadProblem(db, id, user, device, index, body, digestOk));
    assert r == [r[0], r[1], r[2]];
  }

  /** A chunk is stored exactly when all requirements are met: under its index, and counted. */
  lemma PutExactly(db: Db, id: TransferId, user: UserId, device: DeviceId, index: nat, body: Blob, digestOk: bool)
    ensures Answers(UploadRequirements(db, id, user, device, index, body, digestOk)
                    + StoreRequirements(db, id, index, body),
                    Unless(Created, PutReply(db, id, user, device, index, body, digestOk)))
    ensures var db' := PutDb(db, id, user, device, index, body, digestOk);
            if PutReply(db, id, user, device, index, body, digestOk) == Created then
              id in db.transfers && var t := db.transfers[id];
              db' == Db(db.transfers[id := Transfer(t.terms, Uploading, t.uploadedChunks + 1, t.uploadedBytes + |body|,
                                                    t.expiresAt)],
                        db.chunks[ChunkKey(id, index) := body])
            else db' == db
  {
    var reply := PutReply(db, id, user, device, index, body, digestOk);
    UploadMeans(db, id, user, device, index, body, digestOk);
    if UploadProblem(db, id, user, device, index, body, digestOk) == None {
      var r := StoreRequirements(db, id, index, body);
      InOrder3(r[0], r[1], r[2], Unless(Created, reply));
      assert r == [r[0], r[1], r[2]];
    }
    InTwoParts(UploadRequirements(db, id, user, device, index, body, digestOk), StoreRequirements(db, id, index, body),
               UploadProblem(db, id, user, device, index, body, digestOk), Unless(Created, reply));
  }

  // ---------------------------------------------------------------- finishing

  /** Every chunk is there, and one after the other they have the declared number of bytes. */
  ghost predicate Complete(db: Db, id: TransferId) {
    && id in db.transfers
    && var t := db.transfers[id].terms;
    && (forall i: nat :: i < t.chunks ==> ChunkKey(id, i) in db.chunks)
    && |Assembled(db.chunks, id, t.chunks)| == t.bytes
  }

  ghost function FinalizeRequirements(db: Db, id: TransferId, user: UserId, device: DeviceId): seq<Check<Reply>> {
    [Check(IsSource(db, id, user, device), Failed(NotFound)),
     Check(id in db.transfers ==> db.transfers[id].status != Ready, AlreadyReady),
     Check(id in db.transfers ==> db.transfers[id].status == Uploading, Failed(NotUploading)),
     Check(Complete(db, id), Failed(Incomplete))]
  }

  lemma CompleteMeans(db: Db, id: TransferId)
    requires Inv(db) && id in db.transfers && db.transfers[id].status == Uploading
    ensures Complete(db, id)
            <==> |Indices(db.chunks, id)| == db.transfers[id].terms.chunks
                 && StoredBytes(db.chunks, id) == db.transfers[id].terms.bytes
  {
    var n := db.transfers[id].terms.chunks;
    FinalizeExact(db, id);
    assert TransferOk(db, id);
    if forall i: nat :: i < n ==> ChunkKey(id, i) in db.chunks {
      forall i | i in UpTo(n) ensures i in Indices(db.chunks, id) {
        IndexIn(db.chunks, id, i);
      }
      forall i | i in Indices(db.chunks, id) ensures i in UpTo(n) {
        IndexIn(db.chunks, id, i);
        assert ChunkOk(db, ChunkKey(id, i));
      }
      assert Indices(db.chunks, id) == UpTo(n);
      AssembledSize(db.chunks, id, n);
    }
  }

  /** A complete transfer becomes ready, and is kept for thirty days from then. */
  lemma FinalizedExactly(db: Db, id: TransferId, user: UserId, device: DeviceId, now: Time)
    requires Inv(db)
    ensures Answers(FinalizeRequirements(db, id, user, device), Unless(Finalized, FinalizeReply(db, id, user, device)))
    ensures var db' := FinalizedDb(db, id, user, device, now);
            if FinalizeReply(db, id, user, device) == Finalized then
              id in db.transfers && var t := db.transfers[id];
              db' == Db(db.transfers[id := Transfer(t.terms, Ready, t.uploadedChunks, t.uploadedBytes, now + 2592000000)],
                        db.chunks)
            else db' == db
  {
    if id in db.transfers && db.transfers[id].status == Uploading {
      CompleteMeans(db, id);
    }
    var r := FinalizeRequirements(db, id, user, device);
    InOrder4(r[0], r[1], r[2], r[3], Unless(Finalized, FinalizeReply(db, id, user, device)));
    assert r == [r[0], r[1], r[2], r[3]];
  }

  // ---------------------------------------------------------------- downloading

  /** A chunk is served exactly to the destination of a ready transfer, and it is the one stored under this index. */
  lemma ServedExactly(db: Db, id: TransferId, user: UserId, device: DeviceId, index: nat)
    requires Inv(db)
    ensures IsDestination(db, id, user, device) && db.transfers[id].status == Ready && index < db.transfers[id].terms.chunks
            ==> ChunkKey(id, index) in db.chunks
    ensures GetReply(db, id, user, device, index)
            == if IsDestination(db, id, user, device) && db.transfers[id].status == Ready
                  && index < db.transfers[id].terms.chunks
               then Served(db.chunks[ChunkKey(id, index)]) else Failed(NotFound)
  {
    if id in db.transfers && db.transfers[id].status == Ready {
      ReadyIsComplete(db, id);
    }
  }

  function ConsumeRequirements(db: Db, id: TransferId, user: UserId, device: DeviceId): seq<Check<Reply>> {
    [Check(IsDestination(db, id, user, device), Failed(NotFound)),
     Check(id in db.transfers ==> db.transfers[id].status != Consumed, AlreadyConsumed),
     Check(id in db.transfers ==> db.transfers[id].status == Ready, Failed(NotReady))]
  }

  /** The destination consumes a ready transfer, and its chunks are deleted. */
  lemma ConsumedExactly(db: Db, id: TransferId, user: UserId, device: DeviceId)
    ensures Answers(ConsumeRequirements(db, id, user, device), Unless(Taken, ConsumeReply(db, id, user, device)))
    ensures if ConsumeReply(db, id, user, device) == Taken then EndsOnly(db, ConsumedDb(db, id, user, device), {id}, Consumed)
            else ConsumedDb(db, id, user, device) == db
  {
    var r := ConsumeRequirements(db, id, user, device);
    InOrder3(r[0], r[1], r[2], Unless(Taken, ConsumeReply(db, id, user, device)));
    assert r == [r[0], r[1], r[2]];
  }

  function CancelRequirements(db: Db, id: TransferId, user: UserId, device: DeviceId): seq<Check<Reply>> {
    [Check(IsSource(db, id, user, device), Failed(NotFound)),
     Check(id in db.transfers ==> db.transfers[id].status != Canceled, AlreadyCanceled),
     Check(id in db.transfers ==> db.transfers[id].status == Uploading, Failed(NotCancelable))]
  }

  /** The source cancels a transfer that is not ready yet, and its chunks are deleted. */
  lemma CanceledExactly(db: Db, id: TransferId, user: UserId, device: DeviceId)
    ensures Answers(CancelRequirements(db, id, user, device), Unless(CanceledNow, CancelReply(db, id, user, device)))
    ensures if CancelReply(db, id, user, device) == CanceledNow
            then EndsOnly(db, CanceledDb(db, id, user, device), {id}, Canceled)
            else CanceledDb(db, id, user, device) == db
  {
    var r := CancelRequirements(db, id, user, device);
    InOrder3(r[0], r[1], r[2], Unless(CanceledNow, CancelReply(db, id, user, device)));
    assert r == [r[0], r[1], r[2]];
  }

  // ---------------------------------------------------------------- what is downloaded was uploaded

  /** The request uploads this chunk, and it is stored. */
  ghost predicate Uploads(db: Db, op: Op, id: TransferId, index: nat) {
    && op.PutOp? && op.id == id && op.index == index
    && PutReply(Entered(db, op), id, op.user, op.device, index, op.body, op.digestOk) == Created
  }

  ghost predicate UploadedAt(ops: seq<Op>, i: nat, id: TransferId, index: nat, body: Blob) {
    i < |ops| && Uploads(Run(Empty(), ops[..i]), ops[i], id, index) && ops[i].body == body
  }

  lemma NewChunk(db: Db, op: Op, k: ChunkKey)
    requires k in Step(db, op).chunks
    ensures if Uploads(db, op, k.transfer, k.index) then Step(db, op).chunks[k] == op.body
            else k in db.chunks && Step(db, op).chunks[k] == db.chunks[k]
  {}

  /** Every stored chunk is the body of an accepted upload of its index. */
  lemma {:induction false} ChunkOrigin(ops: seq<Op>, k: ChunkKey)
    requires k in Run(Empty(), ops).chunks
    ensures exists i: nat :: UploadedAt(ops, i, k.transfer, k.index, Run(Empty(), ops).chunks[k])
  {
    var n := |ops| - 1;
    var earlier, op := ops[..n], ops[n];
    NewChunk(Run(Empty(), earlier), op, k);
    if Uploads(Run(Empty(), earlier), op, k.transfer, k.index) {
      assert UploadedAt(ops, n, k.transfer, k.index, op.body);
    } else {
      ChunkOrigin(earlier, k);
      var i: nat :| UploadedAt(earlier, i, k.transfer, k.index, Run(Empty(), earlier).chunks[k]);
      assert ops[..i] == earlier[..i];
      assert UploadedAt(ops, i, k.transfer, k.index, Run(Empty(), ops).chunks[k]);
    }
  }

  /** No index of a transfer is uploaded twice. */
  lemma UploadedOnce(ops: seq<Op>, i: nat, j: nat, id: TransferId, index: nat, a: Blob, b: Blob)
    requires i < j && UploadedAt(ops, i, id, index, a)
    ensures !UploadedAt(ops, j, id, index, b)
  {
    if j < |ops| {
      var done, late := Run(Empty(), ops[..i + 1]), Run(Empty(), ops[..j]);
      Pieces(ops, i, j);
      assert id in done.transfers && ChunkKey(id, index) in done.chunks;
      RunSplit(Empty(), ops[..i + 1], ops[i + 1..j]);
      LifeCycle(done, ops[i + 1..j], id);
      EnteredProgress(late, ops[j], id);
      ProgressFollows(done, late, Entered(late, ops[j]), id);
    }
  }

  lemma UploadedBySource(ops: seq<Op>, i: nat, id: TransferId, index: nat, body: Blob)
    requires UploadedAt(ops, i, id, index, body)
    ensures IsSource(Run(Empty(), ops), id, ops[i].user, ops[i].device)
  {
    var before, rest := Run(Empty(), ops[..i]), ops[i..];
    assert ops[..i] + rest == ops;
    RunSplit(Empty(), ops[..i], rest);
    EnteredProgress(before, ops[i], id);
    assert id in before.transfers;
    LifeCycle(before, rest, id);
  }

  /**
   After any requests: what a device is served under an index is the body of the one accepted upload of this index,
   which came from the source of the transfer.
   */
  lemma ServedWasUploaded(ops: seq<Op>, id: TransferId, user: UserId, device: DeviceId, index: nat, now: Time)
    returns (i: nat)
    requires GetReply(Compacted(Run(Empty(), ops), now), id, user, device, index).Served?
    ensures UploadedAt(ops, i, id, index, GetReply(Compacted(Run(Empty(), ops), now), id, user, device, index).body)
    ensures forall j: nat, body :: UploadedAt(ops, j, id, index, body) ==> j == i
    ensures IsSource(Run(Empty(), ops), id, ops[i].user, ops[i].device)
  {
    var k, db := ChunkKey(id, index), Run(Empty(), ops);
    var body := db.chunks[k];
    ChunkOrigin(ops, k);
    i :| UploadedAt(ops, i, id, index, body);
    UploadedBySource(ops, i, id, index, body);
    forall j: nat, other | UploadedAt(ops, j, id, index, other) ensures j == i {
      if j < i {
        UploadedOnce(ops, j, i, id, index, other, body);
      } else if i < j {
        UploadedOnce(ops, i, j, id, index, body, other);
      }
    }
  }

  /** One body after the other. */
  function Concatenated(bodies: seq<Blob>): Blob {
    if bodies == [] then [] else Concatenated(bodies[..|bodies| - 1]) + bodies[|bodies| - 1]
  }

  lemma {:induction false} AssembledIs(chunks: map<ChunkKey, Blob>, id: TransferId, bodies: seq<Blob>)
    requires forall i: nat :: i < |bodies| ==> ChunkKey(id, i) in chunks && chunks[ChunkKey(id, i)] == bodies[i]
    ensures Assembled(chunks, id, |bodies|) == Concatenated(bodies)
  {
    if bodies != [] {
      AssembledIs(chunks, id, bodies[..|bodies| - 1]);
    }
  }

  /**
   Every chunk of a ready transfer is served to its destination, and one after the other they have exactly the
   declared number of bytes.
   */
  lemma DownloadIsComplete(db: Db, id: TransferId, bodies: seq<Blob>)
    requires Inv(db) && id in db.transfers && db.transfers[id].status == Ready && |bodies| == db.transfers[id].terms.chunks
    requires var t := db.transfers[id].terms;
             forall i: nat :: i < t.chunks ==> GetReply(db, id, t.user, t.destination, i) == Served(bodies[i])
    ensures (forall i: nat :: i < |bodies| ==> ChunkKey(id, i) in db.chunks)
            && Concatenated(bodies) == Assembled(db.chunks, id, |bodies|)
    ensures |Concatenated(bodies)| == db.transfers[id].terms.bytes
  {
    var t := db.transfers[id].terms;
    ReadyIsComplete(db, id);
    forall i: nat | i < |bodies| ensures db.chunks[ChunkKey(id, i)] == bodies[i] {
      assert GetReply(db, id, t.user, t.destination, i) == Served(bodies[i]);
    }
    AssembledIs(db.chunks, id, bodies);
  }
}
