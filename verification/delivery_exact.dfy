/**
 The delivery handlers told from the columns of the tables alone: when a submission is stored and what it
 writes, which requirement refuses it, what a page holds, and how the cursors move.
 */
module DeliveryExact {
  import opened Checks
  import opened Common
  import opened Delivery
  import opened DeliveryInvariant
  import opened DeliveryTheorems

  // ---------------------------------------------------------------- when a submission is stored

  /** How many commits the channel has accepted. */
  ghost function CommitCount(db: Db, c: ChannelId): nat
    requires Contiguous(db)
  {
    if c in db.channels then |CommitsOf(Log(db, c))| else 0
  }

  /** Only a Welcome names a recipient, and that device is active. */
  predicate RecipientFits(db: Db, req: Submission) {
    match req.recipient
    case Some(d) => req.messageClass == Welcome && d in db.active
    case None => req.messageClass != Welcome
  }

  /** Only an application message has an event, with at most ten different attachments for an attachment event. */
  predicate EventFits(req: Submission) {
    match req.event
    case None => req.messageClass != Application
    case Some(e) =>
      && req.messageClass == Application
      && (if e.kind == Attachment then 1 <= |e.attachments| <= 10 else |e.attachments| == 0)
      && (forall i, j :: 0 <= i < j < |e.attachments| ==> e.attachments[i] != e.attachments[j])
      && (e.target == None ==> e.kind == Message || e.kind == Attachment)
  }

  /** The epochs are those of a group that has made every accepted commit. */
  predicate EpochFits(req: Submission, commits: nat) {
    if req.messageClass == Commit then req.parentEpoch == Some(commits) && req.acceptedEpoch == commits + 1
    else req.acceptedEpoch == commits && req.parentEpoch == if req.messageClass == Proposal then Some(commits) else None
  }

  /** A target is a message, or an attachment unless it is to be edited, of the same channel. */
  predicate TargetFits(db: Db, req: Submission) {
    req.event.Some? && req.event.value.target.Some? ==>
      && req.event.value.target.value in db.events
      && var row := db.events[req.event.value.target.value];
      && row.at.channel == req.channel
      && (row.kind == Message || (row.kind == Attachment && req.event.value.kind != Edit))
  }

  /** Edits are for the author of the target, deletes for the author and for owners; the rest is for everyone. */
  predicate AuthorFits(db: Db, req: Submission) {
    req.event.Some? && req.event.value.target.Some? && req.event.value.target.value in db.events ==>
      match req.event.value.kind
      case Edit => db.events[req.event.value.target.value].user == req.user
      case Delete => db.events[req.event.value.target.value].user == req.user || req.isOwner
      case _ => true
  }

  /** The uploader's own attachment in this channel: not linked, not deleted, not expired. */
  predicate OwnUpload(db: Db, req: Submission, a: AttachmentId) {
    && a in db.attachments
    && db.attachments[a].channel == req.channel && db.attachments[a].user == req.user
    && db.attachments[a].device == req.device
    && db.attachments[a].event == None && db.attachments[a].deleted == false
    && match db.attachments[a].expiresAt
       case None => true
       case Some(time) => time > req.now
  }

  predicate AttachmentsFit(db: Db, req: Submission) {
    req.event.Some? ==> forall a :: a in req.event.value.attachments ==> OwnUpload(db, req, a)
  }

  /** The device has not used the operation id before. */
  ghost predicate FreshOperation(db: Db, req: Submission) {
    forall p :: p in db.messages ==>
      !(db.messages[p].device == req.device && db.messages[p].operation == req.operation)
  }

  /** What the handler asks of a submission before it looks at the tables. */
  function FormRequirements(db: Db, req: Submission): seq<Check<Error>> {
    [Check(req.channel in db.encrypted, EncryptedChannelRequired),
     Check(RecipientFits(db, req), InvalidRecipient),
     Check(EventFits(req), InvalidEventRouting)]
  }

  /** What it asks of the epochs. */
  ghost function EpochRequirements(db: Db, req: Submission): seq<Check<Error>>
    requires Contiguous(db)
  {
    var n := CommitCount(db, req.channel);
    [Check(req.channel in db.channels, NotInitialized),
     Check(EpochFits(req, n), EpochConflict(n, if req.channel in db.channels then |Log(db, req.channel)| + 1 else 0))]
  }

  /** What it asks of the event. */
  function EventRequirements(db: Db, req: Submission): seq<Check<Error>> {
    [Check(TargetFits(db, req), InvalidEventReference),
     Check(AuthorFits(db, req), ForbiddenEventMutation),
     Check(req.event.Some? ==> req.event.value.eventId !in db.events, DuplicateEvent),
     Check(AttachmentsFit(db, req), InvalidAttachmentReference)]
  }

  /** What the handler asks of a submission with a new operation id, in this order. */
  ghost function Requirements(db: Db, req: Submission): seq<Check<Error>>
    requires Contiguous(db)
  {
    FormRequirements(db, req) + (EpochRequirements(db, req) + EventRequirements(db, req))
  }

  function ErrorOf(reply: Reply): Option<Error> {
    if reply.Rejected? then Some(reply.error) else None
  }

  lemma {:induction false} DistinctCount(s: seq<AttachmentId>)
    ensures |Elements(s)| == |s| <==> forall i, j :: 0 <= i < j < |s| ==> s[i] != s[j]
    ensures |Elements(s)| <= |s|
  {
    if s != [] {
      var init, last := s[..|s| - 1], s[|s| - 1];
      DistinctCount(init);
      assert s == init + [last];
      assert Elements(s) == Elements(init) + {last};
      if last in Elements(init) {
        assert Elements(s) == Elements(init);
        var i :| 0 <= i < |init| && init[i] == last;
        assert s[i] == s[|s| - 1];
      } else {
        assert forall i :: 0 <= i < |init| ==> s[i] in Elements(init);
      }
    }
  }

  lemma RoutingMeans(req: Submission)
    ensures RoutingOk(req) <==> EventFits(req)
  {
    if req.event.Some? {
      DistinctCount(req.event.value.attachments);
    }
  }

  lemma EpochsMatch(state: ChannelState, req: Submission)
    ensures EpochOk(state, req) <==> EpochFits(req, state.currentEpoch)
  {}

  lemma EpochMeans(db: Db, req: Submission)
    requires Contiguous(db) && EpochsOk(db) && req.channel in db.channels
    ensures EpochOk(db.channels[req.channel], req) <==> EpochFits(req, CommitCount(db, req.channel))
    ensures db.channels[req.channel].currentEpoch == CommitCount(db, req.channel)
    ensures db.channels[req.channel].nextSequence == |Log(db, req.channel)| + 1
  {
    EpochsMatch(db.channels[req.channel], req);
  }

  lemma EventMeans(db: Db, req: Submission)
    ensures Answers(EventRequirements(db, req), EventProblem(db, req))
  {
    var c := EventRequirements(db, req);
    InOrder4(c[0], c[1], c[2], c[3], EventProblem(db, req));
    assert c == [c[0], c[1], c[2], c[3]];
  }

  ghost function FormProblem(db: Db, req: Submission): Option<Error> {
    if req.channel !in db.encrypted then Some(EncryptedChannelRequired)
    else if !RecipientOk(db.active, req) then Some(InvalidRecipient)
    else if !RoutingOk(req) then Some(InvalidEventRouting)
    else None
  }

  lemma FormMeans(db: Db, req: Submission)
    ensures Answers(FormRequirements(db, req), FormProblem(db, req))
  {
    RoutingMeans(req);
    var c := FormRequirements(db, req);
    InOrder3(c[0], c[1], c[2], FormProblem(db, req));
    assert c == [c[0], c[1], c[2]];
  }

  ghost function EpochProblem(db: Db, req: Submission): Option<Error> {
    if req.channel !in db.channels then Some(NotInitialized)
    else
      var state := db.channels[req.channel];
      if EpochOk(state, req) then None else Some(EpochConflict(state.currentEpoch, state.nextSequence))
  }

  lemma EpochProblemMeans(db: Db, req: Submission)
    requires Contiguous(db) && EpochsOk(db)
    ensures Answers(EpochRequirements(db, req), EpochProblem(db, req))
  {
    if req.channel in db.channels {
      EpochMeans(db, req);
    }
    var c := EpochRequirements(db, req);
    InOrder2(c[0], c[1], EpochProblem(db, req));
    assert c == [c[0], c[1]];
  }

  lemma DecisionMeans(db: Db, req: Submission)
    requires FreshOperation(db, req)
    ensures ErrorOf(Decide(db, req))
            == if FormProblem(db, req).Some? then FormProblem(db, req)
               else if EpochProblem(db, req).Some? then EpochProblem(db, req)
               else EventProblem(db, req)
    ensures Decide(db, req).Accepted? ==> !Decide(db, req).replayed
  {
    assert !OperationUsed(db, req.device, req.operation);
  }

  /**
   A submission with a new operation id is refused with the error of the first requirement that it does not meet,
   and is accepted afresh when it meets them all.
   */
  lemma DecidedByRequirements(db: Db, req: Submission)
    requires Contiguous(db) && EpochsOk(db) && FreshOperation(db, req)
    ensures Answers(Requirements(db, req), ErrorOf(Decide(db, req)))
    ensures Decide(db, req).Accepted? ==> !Decide(db, req).replayed
  {
    DecisionMeans(db, req);
    FormMeans(db, req);
    EpochProblemMeans(db, req);
    EventMeans(db, req);
    var behind := if EpochProblem(db, req).Some? then EpochProblem(db, req) else EventProblem(db, req);
    InTwoParts(EpochRequirements(db, req), EventRequirements(db, req), EpochProblem(db, req), behind);
    InTwoParts(FormRequirements(db, req), EpochRequirements(db, req) + EventRequirements(db, req),
               FormProblem(db, req), ErrorOf(Decide(db, req)));
  }

  ghost predicate MeetsAll(db: Db, req: Submission)
    requires Contiguous(db)
  {
    && req.channel in db.encrypted && req.channel in db.channels
    && RecipientFits(db, req) && EventFits(req) && EpochFits(req, CommitCount(db, req.channel))
    && TargetFits(db, req) && AuthorFits(db, req) && AttachmentsFit(db, req)
    && (req.event.Some? ==> req.event.value.eventId !in db.events)
  }

  lemma MeetsAllMeans(db: Db, req: Submission)
    requires Contiguous(db)
    ensures MeetsAll(db, req) <==> Answers(Requirements(db, req), None)
  {
    var a, b, c := FormRequirements(db, req), EpochRequirements(db, req), EventRequirements(db, req);
    var all := Requirements(db, req);
    assert all[0] == a[0] && all[1] == a[1] && all[2] == a[2] && all[3] == b[0] && all[4] == b[1];
    assert all[5] == c[0] && all[6] == c[1] && all[7] == c[2] && all[8] == c[3] && |all| == 9;
  }

  lemma UsedIsReplayed(db: Db, req: Submission)
    requires !FreshOperation(db, req)
    ensures !FreshlyAccepted(db, req)
  {
    var p :| p in db.messages && db.messages[p].device == req.device && db.messages[p].operation == req.operation;
    assert IsOperation(db, p, req.device, req.operation);
  }

  /** A submission is stored if and only if its operation id is new and it meets every requirement. */
  lemma StoredExactly(db: Db, req: Submission)
    requires Inv(db)
    ensures FreshlyAccepted(db, req) <==> FreshOperation(db, req) && MeetsAll(db, req)
  {
    if FreshOperation(db, req) {
      DecidedByRequirements(db, req);
      MeetsAllMeans(db, req);
      if MeetsAll(db, req) {
        OneAnswer(Requirements(db, req), None, ErrorOf(Decide(db, req)));
      }
    } else {
      UsedIsReplayed(db, req);
    }
  }

  /** An owner may delete whatever anybody has sent in the channel. */
  lemma OwnersDelete(db: Db, req: Submission, id: EventId, target: EventId)
    requires Inv(db) && FreshOperation(db, req) && req.channel in db.channels && req.isOwner
    requires req.messageClass == Application && req.recipient == None && EpochFits(req, CommitCount(db, req.channel))
    requires req.event == Some(EventRequest(id, Delete, Some(target), [])) && id !in db.events
    requires target in db.events && db.events[target].at.channel == req.channel
    requires db.events[target].kind == Message || db.events[target].kind == Attachment
    ensures Decide(db, req).Accepted? && !Decide(db, req).replayed
  {
    assert MeetsAll(db, req);
    StoredExactly(db, req);
  }

  // ---------------------------------------------------------------- when an operation id returns

  /** The stored row, its event and its attachments that are not deleted say what the request says. */
  ghost predicate Repeats(db: Db, p: Position, req: Submission) {
    && p in db.messages && p.channel == req.channel
    && var row := db.messages[p];
    && row.messageClass == req.messageClass && row.acceptedEpoch == req.acceptedEpoch
    && row.parentEpoch == req.parentEpoch && row.recipient == req.recipient && row.wire == req.wire
    && match req.event
       case None => forall id :: id in db.events ==> db.events[id].at != p
       case Some(e) =>
         && e.eventId in db.events && db.events[e.eventId].at == p
         && db.events[e.eventId].kind == e.kind && db.events[e.eventId].target == e.target
         && (forall a :: a in e.attachments <==>
               a in db.attachments && db.attachments[a].event == Some(e.eventId) && db.attachments[a].deleted == false)
  }

  lemma RepeatsMeans(db: Db, p: Position, req: Submission)
    requires p in db.messages
    ensures SameOperation(db, p, req) <==> Repeats(db, p, req)
  {
    if req.event.Some? {
      var live, asked := LiveAttachments(db, req.event.value.eventId), Elements(req.event.value.attachments);
      assert live == asked <==> forall a :: a in asked <==> a in live;
      assert forall a :: a in asked <==> a in req.event.value.attachments;
    } else {
      assert forall id :: IsEventAt(db, id, p) <==> id in db.events && db.events[id].at == p;
    }
  }

  /** A used operation id is answered with its row when the request repeats it, else with a conflict; nothing changes. */
  lemma ReplayedExactly(db: Db, p: Position, req: Submission)
    requires OperationsUnique(db) && p in db.messages
    requires db.messages[p].device == req.device && db.messages[p].operation == req.operation
    ensures Answers(
              FormRequirements(db, req) + [Check(Repeats(db, p, req), OperationConflict)], ErrorOf(Decide(db, req)))
    ensures Decide(db, req).Accepted? ==> Decide(db, req) == Accepted(p, db.messages[p], true)
    ensures Submitted(db, req) == db
  {
    FormMeans(db, req);
    RepeatsMeans(db, p, req);
    assert IsOperation(db, p, req.device, req.operation);
    var last := Check(Repeats(db, p, req), OperationConflict);
    if FormProblem(db, req) == None {
      UsedOperationDecision(db, p, req);
      assert !last.met ==> FirstUnmet([last], 0);
    }
    InTwoParts(FormRequirements(db, req), [last], FormProblem(db, req), ErrorOf(Decide(db, req)));
  }

  // ---------------------------------------------------------------- what is stored

  /** The next row of the channel repeats the request, column by column, and no other row changes. */
  ghost predicate MessageWritten(db: Db, db': Db, at: Position, req: Submission) {
    db'.messages == db.messages[at := MessageRow(
        req.operation, req.messageClass, req.acceptedEpoch, req.parentEpoch, req.user, req.device, req.recipient,
        req.wire, req.now)]
  }

  ghost predicate EventWritten(db: Db, db': Db, at: Position, req: Submission) {
    match req.event
    case None => db'.events == db.events
    case Some(e) =>
      db'.events == db.events[e.eventId := EventRow(at, req.user, req.device, e.kind, e.target, req.acceptedEpoch)]
  }

  /** The attachments it names carry the new event, everything else about attachments stays. */
  ghost predicate LinksWritten(db: Db, db': Db, req: Submission) {
    && db'.attachments.Keys == db.attachments.Keys
    && forall a :: a in db.attachments ==>
         var row, row' := db.attachments[a], db'.attachments[a];
         if req.event.Some? && a in req.event.value.attachments
         then row' == AttachmentRow(row.channel, Some(req.event.value.eventId), row.user, row.device, row.expiresAt,
                                    row.deleted)
         else row' == row
  }

  /** The channel has one entry more, and one epoch more for a commit. */
  ghost predicate CountersWritten(db: Db, db': Db, req: Submission)
    requires req.channel in db.channels
  {
    var state := db.channels[req.channel];
    db'.channels == db.channels[req.channel := ChannelState(
        state.currentEpoch + (if req.messageClass == Commit then 1 else 0), state.nextSequence + 1, state.initializedBy)]
  }

  /** One message, its event, its links and the counters, at this position; nothing else. */
  ghost predicate Written(db: Db, db': Db, at: Position, req: Submission) {
    && req.channel in db.channels
    && MessageWritten(db, db', at, req) && EventWritten(db, db', at, req) && LinksWritten(db, db', req)
    && CountersWritten(db, db', req)
    && db'.encrypted == db.encrypted && db'.active == db.active && db'.enrolled == db.enrolled
    && db'.cursors == db.cursors
  }

  /** What an accepted submission writes, and that it is answered with the row that was written. */
  lemma WrittenExactly(db: Db, req: Submission)
    requires Inv(db) && FreshlyAccepted(db, req) && req.channel in db.channels
    ensures Decide(db, req).at == Position(req.channel, |Log(db, req.channel)| + 1)
    ensures Written(db, Submitted(db, req), Decide(db, req).at, req)
    ensures Submitted(db, req).messages[Decide(db, req).at] == Decide(db, req).row
  {
    AcceptedMeans(db, req);
    WrittenMessage(db, req);
    WrittenLinks(db, req);
    WrittenCounters(db, req);
  }

  lemma WrittenMessage(db: Db, req: Submission)
    requires Contiguous(db) && FreshlyAccepted(db, req) && req.channel in db.channels
    ensures var at := Position(req.channel, |Log(db, req.channel)| + 1);
            && MessageWritten(db, Submitted(db, req), at, req) && EventWritten(db, Submitted(db, req), at, req)
            && Decide(db, req).at == at && Decide(db, req).row == Submitted(db, req).messages[at]
  {}

  lemma WrittenLinks(db: Db, req: Submission)
    requires FreshlyAccepted(db, req) && req.channel in db.channels
    ensures LinksWritten(db, Submitted(db, req), req)
  {}

  lemma WrittenCounters(db: Db, req: Submission)
    requires FreshlyAccepted(db, req) && Storable(db, req)
    ensures CountersWritten(db, Submitted(db, req), req)
  {}

  // ---------------------------------------------------------------- pages

  /** What a device may read: everything but the Welcomes of others. */
  predicate ForDevice(row: MessageRow, d: DeviceId) {
    match row.messageClass
    case Welcome => row.recipient == Some(d)
    case _ => true
  }

  /** Entry i of the log, as a fetch delivers it. */
  ghost function EntryAt(db: Db, c: ChannelId, i: nat): Delivered
    requires Contiguous(db) && c in db.channels && i < |Log(db, c)|
  {
    Delivered(i + 1, Log(db, c)[i])
  }

  /** A fetch from the beginning sees an entry of the log exactly when it is for the device. */
  lemma SeenExactly(db: Db, c: ChannelId, d: DeviceId, i: nat)
    requires Contiguous(db) && c in db.channels && i < |Log(db, c)|
    ensures EntryAt(db, c, i) in Visible(db, c, d, 0, |Log(db, c)|) <==> ForDevice(Log(db, c)[i], d)
  {
    VisibleExactly(db, c, d, 0, |Log(db, c)|, EntryAt(db, c, i));
  }

  /** A page is what the device may read of the log behind the requested sequence, as far as the limit goes. */
  lemma PageExactly(db: Db, c: ChannelId, d: DeviceId, after: nat, requested: int, e: Delivered)
    requires Contiguous(db) && c in db.channels
    ensures var page := Page(db, c, d, after, requested);
            e in page <==> && after < e.sequence <= EndOf(page, after) && e.sequence <= |Log(db, c)|
                           && e.row == Log(db, c)[e.sequence - 1] && ForDevice(e.row, d)
    ensures var limit := if requested < 1 then 1 else if requested > 200 then 200 else requested;
            |Page(db, c, d, after, requested)| <= limit
            && (|Page(db, c, d, after, requested)| < limit ==>
                  Page(db, c, d, after, requested) == Visible(db, c, d, after, |Log(db, c)|))
  {
    var page := Page(db, c, d, after, requested);
    PageIsInterval(db, c, d, after, requested);
    PageEnd(db, c, d, after, requested);
    VisibleExactly(db, c, d, after, EndOf(page, after), e);
  }

  /** What is visible to a device is exactly what some fetch of it returns. */
  lemma FetchedExactly(db: Db, c: ChannelId, d: DeviceId, e: Delivered)
    requires Contiguous(db) && c in db.channels
    ensures e in Visible(db, c, d, 0, |Log(db, c)|) <==> exists after: nat, limit: int :: e in Page(db, c, d, after, limit)
  {
    VisibleExactly(db, c, d, 0, |Log(db, c)|, e);
    if e in Visible(db, c, d, 0, |Log(db, c)|) {
      var after: nat := e.sequence - 1;
      PageExactly(db, c, d, after, 1, e);
      VisibleExactly(db, c, d, after, |Log(db, c)|, e);
      FetchProgress(db, c, d, after, 1);
      assert e in Page(db, c, d, after, 1);
    }
    if exists after: nat, limit: int :: e in Page(db, c, d, after, limit) {
      var after: nat, limit: int :| e in Page(db, c, d, after, limit);
      PageExactly(db, c, d, after, limit, e);
    }
  }

  /** The device has been told of every entry so far. */
  predicate Told(r: Reading, e: Delivered) {
    e in r.received
  }

  /**
   A device that keeps fetching from the beginning receives every Welcome that is sent to it, and no other,
   as far as it has come.
   */
  lemma WelcomesReachTheirDevice(db: Db, c: ChannelId, d: DeviceId, requests: seq<Request>, e: Delivered)
    requires Inv(db) && CanFetch(db, c) && e.row.messageClass == Welcome
    ensures var r := Read(Reading(db, 0, []), c, d, requests);
            Told(r, e) <==> && 1 <= e.sequence <= r.after && Position(c, e.sequence) in r.db.messages
                            && e.row == r.db.messages[Position(c, e.sequence)] && e.row.recipient == Some(d)
  {
    ReadsEverythingOnce(db, c, d, requests);
    var r := Read(Reading(db, 0, []), c, d, requests);
    VisibleExactly(r.db, c, d, 0, r.after, e);
  }

  // ---------------------------------------------------------------- cursors

  predicate IsMax(m: nat, a: nat, b: nat) {
    m >= a && m >= b && (m == a || m == b)
  }

  /** A fetch that brings something moves the delivery cursor to the end of the page, never back; nothing else moves. */
  lemma FetchMovesCursor(db: Db, c: ChannelId, d: DeviceId, after: nat, requested: int)
    ensures var db' := Fetched(db, c, d, after, requested);
            var key := CursorKey(c, d);
            && db' == db.(cursors := db'.cursors)
            && db'.cursors - {key} == db.cursors - {key}
            && (if c in db.encrypted && c in db.channels && Page(db, c, d, after, requested) != [] then
                  var page := Page(db, c, d, after, requested);
                  var before := if key in db.cursors then db.cursors[key] else Cursor(0, 0, 0);
                  && key in db'.cursors
                  && IsMax(db'.cursors[key].delivered, before.delivered, page[|page| - 1].sequence)
                  && db'.cursors[key].acknowledged == before.acknowledged
                  && db'.cursors[key].acknowledgedEpoch == before.acknowledgedEpoch
                else db' == db)
  {}

  /** Neither back nor beyond what was delivered and the epoch. */
  predicate Between(cursor: Cursor, sequence: nat, epoch: nat, currentEpoch: nat) {
    && cursor.acknowledged <= sequence && sequence <= cursor.delivered
    && cursor.acknowledgedEpoch <= epoch && epoch <= currentEpoch
  }

  lemma BetweenMeans(db: Db, key: CursorKey, sequence: nat, epoch: nat)
    requires key in db.cursors ==> key.channel in db.channels
    ensures CanAcknowledge(db, key, sequence, epoch)
            <==> key in db.cursors && Between(db.cursors[key], sequence, epoch, db.channels[key.channel].currentEpoch)
  {}

  lemma AcknowledgeWrites(db: Db, key: CursorKey, sequence: nat, epoch: nat)
    ensures Acknowledged(db, key, sequence, epoch)
            == if CanAcknowledge(db, key, sequence, epoch)
               then db.(cursors := db.cursors[key := Cursor(db.cursors[key].delivered, sequence, epoch)]) else db
  {}

  /** An acknowledgement is taken exactly when it goes neither back nor beyond what was delivered and accepted. */
  lemma AcknowledgedExactly(db: Db, key: CursorKey, sequence: nat, epoch: nat)
    requires Inv(db)
    ensures CanAcknowledge(db, key, sequence, epoch)
            <==> key in db.cursors && Between(db.cursors[key], sequence, epoch, CommitCount(db, key.channel))
    ensures Acknowledged(db, key, sequence, epoch)
            == if CanAcknowledge(db, key, sequence, epoch)
               then db.(cursors := db.cursors[key := Cursor(db.cursors[key].delivered, sequence, epoch)]) else db
  {
    assert key in db.cursors ==> CursorOk(db, key);
    BetweenMeans(db, key, sequence, epoch);
    AcknowledgeWrites(db, key, sequence, epoch);
  }

  /** What was delivered can be acknowledged, with the epoch the server is in. */
  lemma DeliveredCanBeAcknowledged(db: Db, c: ChannelId, d: DeviceId, after: nat, requested: int)
    requires Inv(db) && CanFetch(db, c) && Page(db, c, d, after, requested) != []
    ensures var page := Page(db, c, d, after, requested);
            var db' := Fetched(db, c, d, after, requested);
            var end, key := page[|page| - 1].sequence, CursorKey(c, d);
            key in db'.cursors && (db'.cursors[key].acknowledged <= end ==>
              CanAcknowledge(db', key, end, CommitCount(db, c)))
  {
    FetchMovesCursor(db, c, d, after, requested);
    FetchedKeepsInv(db, c, d, after, requested);
    var db' := Fetched(db, c, d, after, requested);
    assert CursorOk(db', CursorKey(c, d));
    assert Log(db', c) == Log(db, c);
  }

  // ---------------------------------------------------------------- the other requests

  function InitializeChecks(db: Db, c: ChannelId, d: DeviceId, isOwner: bool): seq<Check<Error>> {
    [Check(c in db.encrypted, EncryptedChannelRequired),
     Check(c in db.channels || isOwner, OwnerRequired),
     Check(c in db.channels || d in db.enrolled, EnrollmentRequired)]
  }

  /** A channel starts once, at epoch 0 and sequence 1, for an owner with an enrolled device. */
  lemma InitializedExactly(db: Db, c: ChannelId, d: DeviceId, isOwner: bool)
    ensures Answers(InitializeChecks(db, c, d, isOwner), InitializeError(db, c, d, isOwner))
    ensures Initialized(db, c, d, isOwner)
            == if c in db.encrypted && c !in db.channels && isOwner && d in db.enrolled
               then db.(channels := db.channels[c := ChannelState(0, 1, d)]) else db
  {
    var checks := InitializeChecks(db, c, d, isOwner);
    if c !in db.encrypted {
      assert FirstUnmet(checks, 0);
    } else if c !in db.channels && !isOwner {
      assert FirstUnmet(checks, 1);
    } else if c !in db.channels && d !in db.enrolled {
      assert FirstUnmet(checks, 2);
    }
  }

  /** An upload leaves one unlinked row under a new id; a sweep deletes exactly an expired one. */
  lemma AttachmentSteps(db: Db, id: AttachmentId, c: ChannelId, u: UserId, d: DeviceId, e: Option<Time>, now: Time)
    ensures Uploaded(db, id, c, u, d, e)
            == if id in db.attachments then db
               else db.(attachments := db.attachments[id := AttachmentRow(c, None, u, d, e, false)])
    ensures var db' := Swept(db, id, now);
            && db' == db.(attachments := db'.attachments) && db'.attachments - {id} == db.attachments - {id}
            && (id in db'.attachments <==> id in db.attachments)
            && (id in db.attachments ==>
                  && db'.attachments[id] == db.attachments[id].(deleted := db'.attachments[id].deleted)
                  && (db'.attachments[id].deleted <==>
                        db.attachments[id].deleted
                        || (db.attachments[id].expiresAt.Some? && now >= db.attachments[id].expiresAt.value)))
  {}

  /** Each operation of a run is one handler with its own arguments; devices are replaced as a whole. */
  lemma RunsHandlers(db: Db, op: Op)
    ensures Step(db, op)
            == match op
               case InitializeOp(c, d, isOwner) => Initialized(db, c, d, isOwner)
               case SubmitOp(req) => Submitted(db, req)
               case FetchOp(c, d, after, requested) => Fetched(db, c, d, after, requested)
               case AcknowledgeOp(key, sequence, epoch) => Acknowledged(db, key, sequence, epoch)
               case UploadOp(id, c, u, d, e) => Uploaded(db, id, c, u, d, e)
               case SweepOp(id, now) => Swept(db, id, now)
               case DevicesOp(active, enrolled) =>
                 Db(db.encrypted, active, enrolled, db.messages, db.events, db.attachments, db.channels, db.cursors)
  {}
}
