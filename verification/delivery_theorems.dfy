/** Guarantees of the delivery service over whole runs: growth, idempotence, event references, fetching. */
module DeliveryTheorems {
  import opened Common
  import opened Delivery
  import opened DeliveryInvariant

  // ---------------------------------------------------------------- nothing is ever taken back

  ghost predicate LinksStay(before: map<AttachmentId, AttachmentRow>, after: map<AttachmentId, AttachmentRow>) {
    forall a :: a in before ==>
      && a in after
      && (before[a].event.Some? ==> after[a].event == before[a].event)
      && (before[a].deleted ==> after[a].deleted)
      && after[a] == before[a].(event := after[a].event, deleted := after[a].deleted)
  }

  ghost predicate CountersRise(db: Db, db': Db) {
    forall c :: c in db.channels ==>
      && c in db'.channels
      && db.channels[c].currentEpoch <= db'.channels[c].currentEpoch
      && db.channels[c].nextSequence <= db'.channels[c].nextSequence
      && db.channels[c].initializedBy == db'.channels[c].initializedBy
  }

  ghost predicate CursorsRise(before: map<CursorKey, Cursor>, after: map<CursorKey, Cursor>) {
    forall k :: k in before ==>
      && k in after
      && before[k].delivered <= after[k].delivered
      && before[k].acknowledged <= after[k].acknowledged
      && before[k].acknowledgedEpoch <= after[k].acknowledgedEpoch
  }

  /** Messages and events are immutable, links are final, counters and cursors only rise. */
  ghost predicate Grows(db: Db, db': Db) {
    && db.encrypted == db'.encrypted
    && (forall p :: p in db.messages ==> p in db'.messages && db'.messages[p] == db.messages[p])
    && (forall id :: id in db.events ==> id in db'.events && db'.events[id] == db.events[id])
    && LinksStay(db.attachments, db'.attachments)
    && CountersRise(db, db')
    && CursorsRise(db.cursors, db'.cursors)
  }

  lemma StoredGrows(db: Db, req: Submission)
    requires Contiguous(db) && Storable(db, req)
    ensures Grows(db, Stored(db, req))
  {
    if req.event.Some? {
      assert forall a :: a in Elements(req.event.value.attachments) ==> Linkable(db.attachments, req, a);
    }
  }

  lemma SubmittedGrows(db: Db, req: Submission)
    requires Contiguous(db)
    ensures Grows(db, Submitted(db, req))
  {
    AcceptedMeans(db, req);
    if Storable(db, req) {
      StoredGrows(db, req);
    }
  }

  lemma InitializedGrows(db: Db, c: ChannelId, d: DeviceId, isOwner: bool)
    ensures Grows(db, Initialized(db, c, d, isOwner))
  {}

  lemma AcknowledgedGrows(db: Db, key: CursorKey, sequence: nat, epoch: nat)
    ensures Grows(db, Acknowledged(db, key, sequence, epoch))
  {}

  lemma UploadedGrows(db: Db, id: AttachmentId, c: ChannelId, u: UserId, d: DeviceId, e: Option<Time>)
    ensures Grows(db, Uploaded(db, id, c, u, d, e))
  {}

  lemma SweptGrows(db: Db, id: AttachmentId, now: Time)
    ensures Grows(db, Swept(db, id, now))
  {}

  lemma QuietStepGrows(db: Db, op: Op)
    requires !op.SubmitOp? && !op.FetchOp?
    ensures Grows(db, QuietStep(db, op))
  {
    match op
    case InitializeOp(c, d, isOwner) => InitializedGrows(db, c, d, isOwner);
    case AcknowledgeOp(key, sequence, epoch) => AcknowledgedGrows(db, key, sequence, epoch);
    case UploadOp(id, c, u, d, e) => UploadedGrows(db, id, c, u, d, e);
    case SweepOp(id, now) => SweptGrows(db, id, now);
    case DevicesOp(active, enrolled) =>
  }

  lemma StepGrows(db: Db, op: Op)
    requires Contiguous(db)
    ensures Grows(db, Step(db, op))
  {
    if op.SubmitOp? {
      SubmittedGrows(db, op.req);
    } else if !op.FetchOp? {
      QuietStepGrows(db, op);
    }
  }

  lemma GrowsTransitive(a: Db, b: Db, c: Db)
    requires Grows(a, b) && Grows(b, c)
    ensures Grows(a, c)
  {}

  /** Over any run nothing stored is changed or removed, no attachment is relinked and every cursor is monotone. */
  lemma {:induction false} RunGrows(db: Db, ops: seq<Op>)
    requires Inv(db)
    ensures Grows(db, Run(db, ops))
  {
    if ops != [] {
      var before := Run(db, ops[..|ops| - 1]);
      RunGrows(db, ops[..|ops| - 1]);
      RunKeepsInv(db, ops[..|ops| - 1]);
      StepGrows(before, ops[|ops| - 1]);
      GrowsTransitive(db, before, Run(db, ops));
    }
  }

  // ---------------------------------------------------------------- exactly once

  /** Entry `at` is what accepting `req` stored: row, event and every attachment ever linked to it. */
  ghost predicate Carries(db: Db, at: Position, req: Submission) {
    && at in db.messages && at.channel == req.channel
    && IsOperation(db, at, req.device, req.operation)
    && SameRow(db.messages[at], req)
    && match req.event
       case None => forall id :: !IsEventAt(db, id, at)
       case Some(e) =>
         && IsEventAt(db, e.eventId, at)
         && db.events[e.eventId].kind == e.kind && db.events[e.eventId].target == e.target
         && LinkedAttachments(db, e.eventId) == Elements(e.attachments)
  }

  ghost function FreshPosition(db: Db, req: Submission): Position
    requires req.channel in db.channels
  {
    Position(req.channel, db.channels[req.channel].nextSequence)
  }

  lemma AcceptedCarries(db: Db, req: Submission)
    requires Inv(db) && Storable(db, req)
    ensures Carries(Stored(db, req), FreshPosition(db, req), req)
  {
    var db' := Stored(db, req);
    var at := FreshPosition(db, req);
    assert at !in db.messages;
    if req.event.Some? {
      StoredLinks(db, req, req.event.value.eventId);
    } else {
      forall id | id in db.events ensures db.events[id].at != at {
        assert EventMatches(db, id);
      }
    }
  }

  lemma QuietStepLinks(db: Db, op: Op)
    requires !op.SubmitOp? && !op.FetchOp?
    ensures LinksKept(db.attachments, QuietStep(db, op).attachments)
  {
    match op
    case UploadOp(id, c, u, d, e) => UploadedLinks(db, id, c, u, d, e);
    case SweepOp(id, now) => SweptLinks(db, id, now);
    case _ =>
  }

  lemma KeptLinks(db: Db, db': Db, id: EventId)
    requires LinksKept(db.attachments, db'.attachments)
    ensures LinkedAttachments(db', id) == LinkedAttachments(db, id)
  {
    assert forall a :: a in LinkedAttachments(db', id) <==> a in LinkedAttachments(db, id);
  }

  lemma SubmittedKeepsLinks(db: Db, req: Submission, id: EventId)
    requires AttachmentsOk(db) && id in db.events
    ensures LinkedAttachments(Submitted(db, req), id) == LinkedAttachments(db, id)
  {
    AcceptedMeans(db, req);
    if Storable(db, req) && RecipientOk(db.active, req) {
      StoredLinks(db, req, id);
    }
  }

  /** Links of an existing event are never extended or taken away. */
  lemma StepKeepsLinks(db: Db, op: Op, id: EventId)
    requires AttachmentsOk(db) && id in db.events
    ensures LinkedAttachments(Step(db, op), id) == LinkedAttachments(db, id)
  {
    if op.SubmitOp? {
      SubmittedKeepsLinks(db, op.req, id);
    } else if !op.FetchOp? {
      QuietStepLinks(db, op);
      KeptLinks(db, QuietStep(db, op), id);
    }
  }

  /** No handler gives an existing entry an event it did not have. */
  lemma StepKeepsNoEvent(db: Db, op: Op, at: Position)
    requires Contiguous(db) && at in db.messages && forall id :: !IsEventAt(db, id, at)
    ensures forall id :: !IsEventAt(Step(db, op), id, at)
  {
    forall id ensures !IsEventAt(Step(db, op), id, at) {
      assert !IsEventAt(db, id, at);
    }
  }

  lemma StepCarries(db: Db, op: Op, at: Position, req: Submission)
    requires Inv(db) && Carries(db, at, req)
    ensures Carries(Step(db, op), at, req)
  {
    StepGrows(db, op);
    if req.event.Some? {
      StepKeepsLinks(db, op, req.event.value.eventId);
    } else {
      StepKeepsNoEvent(db, op, at);
    }
  }

  lemma {:induction false} RunCarries(db: Db, ops: seq<Op>, at: Position, req: Submission)
    requires Inv(db) && Carries(db, at, req)
    ensures Carries(Run(db, ops), at, req)
  {
    if ops != [] {
      RunKeepsInv(db, ops[..|ops| - 1]);
      RunCarries(db, ops[..|ops| - 1], at, req);
      StepCarries(Run(db, ops[..|ops| - 1]), ops[|ops| - 1], at, req);
    }
  }

  /** Two submissions say the same, attachments aside. */
  ghost predicate SameButAttachments(a: Submission, b: Submission) {
    && a.channel == b.channel && a.messageClass == b.messageClass
    && a.acceptedEpoch == b.acceptedEpoch && a.parentEpoch == b.parentEpoch
    && a.recipient == b.recipient && a.wire == b.wire
    && match (a.event, b.event)
       case (None, None) => true
       case (Some(e), Some(f)) => e.eventId == f.eventId && e.kind == f.kind && e.target == f.target
       case _ => false
  }

  function AttachmentsOf(req: Submission): set<AttachmentId> {
    if req.event.Some? then Elements(req.event.value.attachments) else {}
  }

  /** The attachments of a request that have not been deleted since. */
  ghost function StillLive(db: Db, req: Submission): set<AttachmentId> {
    set a | a in AttachmentsOf(req) && a in db.attachments && !db.attachments[a].deleted
  }

  /** A used operation id is answered by comparing with the one row that used it. */
  lemma UsedOperationDecision(db: Db, at: Position, again: Submission)
    requires OperationsUnique(db) && Prevalidated(db, again)
    requires IsOperation(db, at, again.device, again.operation)
    ensures Decide(db, again)
            == if SameOperation(db, at, again) then Accepted(at, db.messages[at], true)
               else Rejected(OperationConflict)
  {
    forall p | IsOperation(db, p, again.device, again.operation) ensures p == at {}
  }

  lemma ReplayDecision(db: Db, at: Position, req: Submission, again: Submission)
    requires OperationsUnique(db) && EventsOk(db) && Carries(db, at, req)
    requires Prevalidated(db, again) && again.device == req.device && again.operation == req.operation
    ensures Decide(db, again)
            == if SameButAttachments(req, again) && AttachmentsOf(again) == StillLive(db, req)
               then Accepted(at, db.messages[at], true) else Rejected(OperationConflict)
    ensures Submitted(db, again) == db
  {
    UsedOperationDecision(db, at, again);
    SameOperationMeans(db, at, req, again);
  }

  lemma SameOperationMeans(db: Db, at: Position, req: Submission, again: Submission)
    requires EventsOk(db) && Carries(db, at, req)
    ensures SameOperation(db, at, again) <==>
            SameButAttachments(req, again) && AttachmentsOf(again) == StillLive(db, req)
  {
    if req.event.Some? {
      var id := req.event.value.eventId;
      assert LiveAttachments(db, id) == StillLive(db, req) by {
        forall a | a in db.attachments ensures a in LiveAttachments(db, id) <==> a in StillLive(db, req) {
          assert a in LinkedAttachments(db, id) <==> a in Elements(req.event.value.attachments);
        }
      }
      assert IsEventAt(db, id, at);
      if again.event.Some? && IsEventAt(db, again.event.value.eventId, at) {
        assert again.event.value.eventId == id;
      }
    } else if again.event.Some? {
      assert !IsEventAt(db, again.event.value.eventId, at);
    }
  }

  /** The stored row, or a conflict. */
  ghost function ReplayReply(later: Db, at: Position, req: Submission, again: Submission): Reply
    requires at in later.messages
  {
    if SameButAttachments(req, again) && AttachmentsOf(again) == StillLive(later, req)
    then Accepted(at, later.messages[at], true) else Rejected(OperationConflict)
  }

  /** The submission changes nothing, and is answered from the row that stands there. */
  ghost predicate AnsweredFrom(later: Db, at: Position, req: Submission, again: Submission) {
    && Submitted(later, again) == later
    && at in later.messages
    && Decide(later, again) == ReplayReply(later, at, req, again)
  }

  /**
   Exactly once, over any run: after a submission has been accepted, a later submission with the
   same device and operation id never changes the state. It is answered with the stored row
   if and only if it repeats every field and names exactly those of the original attachments
   that have not been deleted since; otherwise it is an operation conflict.
   */
  lemma ExactlyOnce(db: Db, req: Submission, ops: seq<Op>, again: Submission)
    requires Inv(db) && FreshlyAccepted(db, req)
    requires again.device == req.device && again.operation == req.operation
    ensures var later := Run(Submitted(db, req), ops);
            Prevalidated(later, again) ==> AnsweredFrom(later, FreshPosition(db, req), req, again)
  {
    AcceptedMeans(db, req);
    var stored := Submitted(db, req);
    var at := FreshPosition(db, req);
    SubmittedKeepsInv(db, req);
    AcceptedCarries(db, req);
    RunKeepsInv(stored, ops);
    RunCarries(stored, ops, at, req);
    if Prevalidated(Run(stored, ops), again) {
      ReplayDecision(Run(stored, ops), at, req, again);
    }
  }

  /** An identical retry is answered with the stored row if and only if no linked attachment was deleted. */
  lemma IdenticalRetry(db: Db, req: Submission, ops: seq<Op>)
    requires Inv(db) && FreshlyAccepted(db, req)
    ensures var later := Run(Submitted(db, req), ops);
            Prevalidated(later, req) ==>
              (Decide(later, req).Accepted? <==>
               forall a :: a in AttachmentsOf(req) ==> a in later.attachments && !later.attachments[a].deleted)
  {
    ExactlyOnce(db, req, ops, req);
    var later := Run(Submitted(db, req), ops);
    assert AttachmentsOf(req) == StillLive(later, req) <==>
             forall a :: a in AttachmentsOf(req) ==> a in StillLive(later, req);
  }

  // ---------------------------------------------------------------- event references

  /** An event followed through its targets to the event it is ultimately about. */
  ghost function TargetChain(db: Db, id: EventId): (chain: seq<EventId>)
    requires EventsOk(db) && id in db.events
    ensures chain != [] && chain[0] == id
    decreases db.events[id].at.sequence
  {
    assert EventMatches(db, id) && TargetOk(db, id);
    match db.events[id].target
    case None => [id]
    case Some(t) => [id] + TargetChain(db, t)
  }

  /** Element i of a target chain, for chains of any length. */
  ghost predicate ChainLinkOk(db: Db, channel: ChannelId, chain: seq<EventId>, i: nat)
    requires i < |chain|
  {
    && chain[i] in db.events
    && db.events[chain[i]].at.channel == channel
    && (if i + 1 < |chain| then
          && chain[i + 1] in db.events
          && db.events[chain[i]].target == Some(chain[i + 1])
          && db.events[chain[i + 1]].at.sequence < db.events[chain[i]].at.sequence
          && (db.events[chain[i + 1]].kind == Message || db.events[chain[i + 1]].kind == Attachment)
        else db.events[chain[i]].target == None)
  }

  /**
   Target chains stay in one channel, go to strictly smaller server sequences and only through
   message and attachment events, so they end, at an event without a target.
   */
  lemma {:induction false} ChainsEnd(db: Db, id: EventId)
    requires EventsOk(db) && Contiguous(db) && id in db.events
    ensures var chain := TargetChain(db, id);
            && |chain| <= db.events[id].at.sequence
            && forall i: nat :: i < |chain| ==> ChainLinkOk(db, db.events[id].at.channel, chain, i)
    decreases db.events[id].at.sequence
  {
    assert EventMatches(db, id) && TargetOk(db, id);
    var chain := TargetChain(db, id);
    match db.events[id].target
    case None =>
    case Some(t) =>
      ChainsEnd(db, t);
      var rest := TargetChain(db, t);
      forall i: nat | i < |chain| ensures ChainLinkOk(db, db.events[id].at.channel, chain, i) {
        if i > 0 {
          assert chain[i] == rest[i - 1] && (i + 1 < |chain| ==> chain[i + 1] == rest[i]);
          assert ChainLinkOk(db, db.events[t].at.channel, rest, i - 1);
        }
      }
  }

  /** The submission that stored an event row, on the state it was accepted in. */
  ghost predicate Stores(before: Db, op: Op, id: EventId, row: EventRow) {
    && op.SubmitOp? && Storable(before, op.req)
    && op.req.event.Some? && op.req.event.value.eventId == id
    && row == NewEvent(op.req, op.req.event.value, FreshPosition(before, op.req))
  }

  lemma StepEvents(db: Db, op: Op, id: EventId)
    requires id in Step(db, op).events && id !in db.events
    ensures Stores(db, op, id, Step(db, op).events[id])
  {
    if op.SubmitOp? {
      AcceptedMeans(db, op.req);
    }
  }

  /** Operation k of the run stored this event row. */
  ghost predicate Origin(db: Db, ops: seq<Op>, k: nat, id: EventId, row: EventRow) {
    k < |ops| && Stores(Run(db, ops[..k]), ops[k], id, row)
  }

  lemma OriginExtends(db: Db, init: seq<Op>, op: Op, k: nat, id: EventId, row: EventRow)
    requires Origin(db, init, k, id, row)
    ensures Origin(db, init + [op], k, id, row)
  {
    assert (init + [op])[..k] == init[..k];
  }

  lemma OriginLast(db: Db, init: seq<Op>, op: Op, id: EventId)
    requires id in Step(Run(db, init), op).events && id !in Run(db, init).events
    ensures Origin(db, init + [op], |init|, id, Step(Run(db, init), op).events[id])
  {
    assert (init + [op])[..|init|] == init;
    StepEvents(Run(db, init), op, id);
  }

  /** Every event that appears during a run was stored by one accepted submission of that run. */
  lemma {:induction false} EventOrigin(db: Db, ops: seq<Op>, id: EventId) returns (k: nat)
    requires Inv(db) && id in Run(db, ops).events && id !in db.events
    ensures Origin(db, ops, k, id, Run(db, ops).events[id])
  {
    var init, op := ops[..|ops| - 1], ops[|ops| - 1];
    assert ops == init + [op];
    RunKeepsInv(db, init);
    if id in Run(db, init).events {
      StepKeepsEvent(Run(db, init), op, id);
      k := EventOrigin(db, init, id);
      OriginExtends(db, init, op, k, id, Run(db, init).events[id]);
    } else {
      OriginLast(db, init, op, id);
      k := |init|;
    }
  }

  lemma StepKeepsEvent(db: Db, op: Op, id: EventId)
    requires Contiguous(db) && id in db.events
    ensures id in Step(db, op).events && Step(db, op).events[id] == db.events[id]
  {
    StepGrows(db, op);
  }

  /**
   Every event in a run that edits another shares the author of its target, and every event
   that deletes another either shares it or was submitted by an owner.
   */
  lemma MutationsAuthorized(db: Db, ops: seq<Op>, id: EventId)
    requires Inv(db) && id in Run(db, ops).events && id !in db.events
    ensures var e := Run(db, ops).events[id];
            && (e.kind == Edit || e.kind == Delete ==> e.target.Some? && e.target.value in Run(db, ops).events)
            && (e.kind == Edit ==> Run(db, ops).events[e.target.value].user == e.user)
            && (e.kind == Delete && Run(db, ops).events[e.target.value].user != e.user ==>
                  exists k: nat :: Origin(db, ops, k, id, e) && ops[k].req.isOwner)
  {
    var k := EventOrigin(db, ops, id);
    RunKeepsInv(db, ops);
    var end := Run(db, ops);
    assert TargetOk(end, id);
    if end.events[id].kind == Delete {
      RunKeepsInv(db, ops[..k]);
      var before := Run(db, ops[..k]);
      var t := ops[k].req.event.value.target.value;
      RunSplit(db, ops, k);
      RunGrows(before, ops[k..]);
      assert MayMutate(before.events, ops[k].req, Delete, t);
    }
  }

  /** A run is its first part followed by the rest. */
  lemma {:induction false} RunSplit(db: Db, ops: seq<Op>, k: nat)
    requires k <= |ops|
    ensures Run(db, ops) == Run(Run(db, ops[..k]), ops[k..])
  {
    if k == |ops| {
      assert ops[..k] == ops && ops[k..] == [];
    } else {
      var init := ops[..|ops| - 1];
      RunSplit(db, init, k);
      assert init[..k] == ops[..k] && init[k..] == ops[k..][..|ops| - k - 1];
    }
  }

  // ---------------------------------------------------------------- fetching

  /** What is visible up to an already assigned sequence never changes again. */
  lemma {:induction false} VisibleStable(db: Db, db': Db, c: ChannelId, d: DeviceId, lo: nat, hi: nat)
    requires Contiguous(db) && Grows(db, db') && c in db.channels && hi < db.channels[c].nextSequence
    ensures Visible(db', c, d, lo, hi) == Visible(db, c, d, lo, hi)
  {
    if lo < hi {
      VisibleStable(db, db', c, d, lo, hi - 1);
      assert Position(c, hi) in db.messages;
    }
  }

  lemma {:induction false} VisibleSplit(db: Db, c: ChannelId, d: DeviceId, lo: nat, mid: nat, hi: nat)
    requires lo <= mid <= hi
    ensures Visible(db, c, d, lo, hi) == Visible(db, c, d, lo, mid) + Visible(db, c, d, mid, hi)
  {
    if mid < hi {
      VisibleSplit(db, c, d, lo, mid, hi - 1);
    }
  }

  /** A prefix of the visible entries is what is visible up to the last entry of the prefix. */
  lemma {:induction false} VisiblePrefix(db: Db, c: ChannelId, d: DeviceId, lo: nat, hi: nat, n: nat)
    requires 0 < n <= |Visible(db, c, d, lo, hi)|
    ensures var v := Visible(db, c, d, lo, hi);
            lo < v[n - 1].sequence <= hi && v[..n] == Visible(db, c, d, lo, v[n - 1].sequence)
  {
    var v := Visible(db, c, d, lo, hi);
    var before := Visible(db, c, d, lo, hi - 1);
    VisibleSound(db, c, d, lo, hi, n - 1);
    if n <= |before| {
      VisiblePrefix(db, c, d, lo, hi - 1, n);
      assert v[..n] == before[..n];
    } else {
      assert v[..n] == v;
    }
  }

  /** One page is exactly what is visible between the request and the sequence it is answered with. */
  lemma PageIsInterval(db: Db, c: ChannelId, d: DeviceId, after: nat, requested: int)
    requires c in db.channels
    ensures var page := Page(db, c, d, after, requested);
            && after <= EndOf(page, after)
            && page == Visible(db, c, d, after, EndOf(page, after))
            && (page == [] ==> Visible(db, c, d, after, db.channels[c].nextSequence - 1) == [])
  {
    var hi := db.channels[c].nextSequence - 1;
    var page := Page(db, c, d, after, requested);
    if page != [] {
      VisiblePrefix(db, c, d, after, hi, |page|);
      assert Visible(db, c, d, after, hi)[..|page|] == page;
    }
  }

  /** One request of a reading device: what happens on the server before it, and the limit it asks for. */
  datatype Request = Request(before: seq<Op>, requested: int)

  datatype Reading = Reading(db: Db, after: nat, received: seq<Delivered>)

  /** A device that keeps fetching with the `deliveredSequence` it was given last. */
  ghost function Read(start: Reading, c: ChannelId, d: DeviceId, requests: seq<Request>): Reading {
    if requests == [] then start
    else
      var sofar := Read(start, c, d, requests[..|requests| - 1]);
      var request := requests[|requests| - 1];
      var db := Run(sofar.db, request.before);
      if !CanFetch(db, c) then sofar.(db := db)
      else
        var page := Page(db, c, d, sofar.after, request.requested);
        Reading(Step(db, FetchOp(c, d, sofar.after, request.requested)),
                EndOf(page, sofar.after),
                sofar.received + page)
  }

  ghost predicate ReadingOk(r: Reading, c: ChannelId, d: DeviceId) {
    && Inv(r.db) && c in r.db.channels && r.after < r.db.channels[c].nextSequence
    && r.received == Visible(r.db, c, d, 0, r.after)
  }

  /** One page brings what was received up to the page's end. */
  lemma PageExtends(r: Reading, c: ChannelId, d: DeviceId, requested: int)
    requires ReadingOk(r, c, d) && CanFetch(r.db, c)
    ensures var page := Page(r.db, c, d, r.after, requested);
            ReadingOk(Reading(Step(r.db, FetchOp(c, d, r.after, requested)), EndOf(page, r.after), r.received + page), c, d)
  {
    var op := FetchOp(c, d, r.after, requested);
    var end := EndOf(Page(r.db, c, d, r.after, requested), r.after);
    StepKeepsInv(r.db, op);
    StepGrows(r.db, op);
    PageIsInterval(r.db, c, d, r.after, requested);
    PageEnd(r.db, c, d, r.after, requested);
    VisibleSplit(r.db, c, d, 0, r.after, end);
    VisibleStable(r.db, Step(r.db, op), c, d, 0, end);
  }

  lemma ReadOnce(r: Reading, c: ChannelId, d: DeviceId, request: Request)
    requires ReadingOk(r, c, d) && CanFetch(r.db, c)
    ensures var db := Run(r.db, request.before);
            && CanFetch(db, c)
            && var page := Page(db, c, d, r.after, request.requested);
            ReadingOk(Reading(Step(db, FetchOp(c, d, r.after, request.requested)), EndOf(page, r.after),
                              r.received + page), c, d)
  {
    var db := Run(r.db, request.before);
    RunKeepsInv(r.db, request.before);
    RunGrows(r.db, request.before);
    VisibleStable(r.db, db, c, d, 0, r.after);
    PageExtends(Reading(db, r.after, r.received), c, d, request.requested);
  }

  /**
   A device that starts at 0 and keeps fetching receives, once each and in order, exactly the entries
   visible to it up to its cursor, for any page limits and any operations in between.
   */
  lemma {:induction false} ReadsEverythingOnce(db: Db, c: ChannelId, d: DeviceId, requests: seq<Request>)
    requires Inv(db) && CanFetch(db, c)
    ensures ReadingOk(Read(Reading(db, 0, []), c, d, requests), c, d)
    ensures CanFetch(Read(Reading(db, 0, []), c, d, requests).db, c)
  {
    if requests != [] {
      ReadsEverythingOnce(db, c, d, requests[..|requests| - 1]);
      var sofar := Read(Reading(db, 0, []), c, d, requests[..|requests| - 1]);
      ReadOnce(sofar, c, d, requests[|requests| - 1]);
    }
  }

  /** A fetch moves on as long as anything visible is left, so an empty page means the device is caught up. */
  lemma FetchProgress(db: Db, c: ChannelId, d: DeviceId, after: nat, requested: int)
    requires c in db.channels
    ensures var page := Page(db, c, d, after, requested);
            var left := Visible(db, c, d, after, db.channels[c].nextSequence - 1);
            && (page == [] <==> left == [])
            && (left != [] ==> after < EndOf(page, after))
            && |page| == if |left| <= ClampLimit(requested) then |left| else ClampLimit(requested)
  {
    PageEnd(db, c, d, after, requested);
  }
}
