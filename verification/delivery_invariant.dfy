/** What every handler of the delivery service keeps, and what follows over whole runs. */
module DeliveryInvariant {
  import opened Common
  import opened Delivery

  // ---------------------------------------------------------------- the log of one channel

  /** The stored sequences of a channel are exactly 1 .. next_sequence - 1. */
  ghost predicate Contiguous(db: Db) {
    && (forall p :: p in db.messages ==>
          p.channel in db.channels && 1 <= p.sequence < db.channels[p.channel].nextSequence)
    && (forall c, s :: c in db.channels && 1 <= s < db.channels[c].nextSequence ==> Position(c, s) in db.messages)
  }

  /** Entry i of the log is the message with server sequence i + 1. */
  ghost function Log(db: Db, c: ChannelId): seq<MessageRow>
    requires Contiguous(db) && c in db.channels
  {
    seq(db.channels[c].nextSequence - 1,
        i requires 0 <= i < db.channels[c].nextSequence - 1 => db.messages[Position(c, i + 1)])
  }

  ghost function CommitsOf(log: seq<MessageRow>): seq<MessageRow> {
    if log == [] then []
    else
      var last := log[|log| - 1];
      CommitsOf(log[..|log| - 1]) + (if last.messageClass == Commit then [last] else [])
  }

  /** A row is consistent with the number of commits accepted before it. */
  ghost predicate RowOk(row: MessageRow, epoch: nat) {
    && (row.messageClass == Welcome <==> row.recipient.Some?)
    && match row.messageClass
       case Commit => row.parentEpoch == Some(epoch) && row.acceptedEpoch == epoch + 1
       case Proposal => row.parentEpoch == Some(epoch) && row.acceptedEpoch == epoch
       case _ => row.parentEpoch == None && row.acceptedEpoch == epoch
  }

  ghost predicate LogOk(log: seq<MessageRow>) {
    forall i :: 0 <= i < |log| ==> RowOk(log[i], |CommitsOf(log[..i])|)
  }

  lemma CommitsOfAppend(log: seq<MessageRow>, row: MessageRow)
    ensures CommitsOf(log + [row]) == CommitsOf(log) + (if row.messageClass == Commit then [row] else [])
  {
    assert (log + [row])[..|log|] == log;
  }

  lemma LogOkAppend(log: seq<MessageRow>, row: MessageRow)
    requires LogOk(log) && RowOk(row, |CommitsOf(log)|)
    ensures LogOk(log + [row])
  {
    var more := log + [row];
    forall i | 0 <= i < |more| ensures RowOk(more[i], |CommitsOf(more[..i])|) {
      assert more[..i] == log[..i];
      assert i == |log| ==> log[..i] == log;
    }
  }

  /** Commits of a longer log extend the commits of a shorter one. */
  lemma {:induction false} CommitsOfPrefix(log: seq<MessageRow>, n: nat)
    requires n <= |log|
    ensures CommitsOf(log[..n]) <= CommitsOf(log)
  {
    if n < |log| {
      var init := log[..|log| - 1];
      CommitsOfPrefix(init, n);
      assert init[..n] == log[..n];
    } else {
      assert log[..n] == log;
    }
  }

  /** Entry i of the log, when it is a commit, is the commit of its parent epoch. */
  lemma CommitAt(log: seq<MessageRow>, i: nat)
    requires LogOk(log) && i < |log| && log[i].messageClass == Commit
    ensures var e := |CommitsOf(log[..i])|;
            e < |CommitsOf(log)| && CommitsOf(log)[e] == log[i] && log[i].parentEpoch == Some(e)
  {
    assert log[..i + 1] == log[..i] + [log[i]];
    CommitsOfAppend(log[..i], log[i]);
    CommitsOfPrefix(log, i + 1);
  }

  lemma {:induction false} CommitsComeFrom(log: seq<MessageRow>, e: nat) returns (i: nat)
    requires LogOk(log) && e < |CommitsOf(log)|
    ensures i < |log| && log[i].messageClass == Commit
    ensures |CommitsOf(log[..i])| == e && log[i] == CommitsOf(log)[e]
  {
    var init := log[..|log| - 1];
    assert LogOk(init) by {
      forall k | 0 <= k < |init| ensures RowOk(init[k], |CommitsOf(init[..k])|) {
        assert init[..k] == log[..k];
      }
    }
    if e < |CommitsOf(init)| {
      i := CommitsComeFrom(init, e);
      assert init[..i] == log[..i];
    } else {
      i := |log| - 1;
    }
  }

  lemma CommitsOfEarlier(log: seq<MessageRow>, i: nat, j: nat)
    requires LogOk(log) && i < j <= |log| && log[i].messageClass == Commit
    ensures |CommitsOf(log[..i])| < |CommitsOf(log[..j])|
  {
    assert log[..i + 1] == log[..i] + [log[i]];
    CommitsOfAppend(log[..i], log[i]);
    CommitsOfPrefix(log[..j], i + 1);
    assert log[..j][..i + 1] == log[..i + 1];
  }

  ghost predicate IsCommitOf(log: seq<MessageRow>, i: nat, e: nat) {
    i < |log| && log[i].messageClass == Commit && log[i].parentEpoch == Some(e)
  }

  /** Every parent epoch below the current one has exactly one accepted commit. */
  lemma OneCommitPerEpoch(log: seq<MessageRow>, e: nat)
    requires LogOk(log)
    ensures e < |CommitsOf(log)| <==> exists i: nat :: IsCommitOf(log, i, e)
    ensures forall i: nat, j: nat :: IsCommitOf(log, i, e) && IsCommitOf(log, j, e) ==> i == j
  {
    if e < |CommitsOf(log)| {
      var i := CommitsComeFrom(log, e);
      assert IsCommitOf(log, i, e);
    }
    forall i: nat | IsCommitOf(log, i, e) ensures e < |CommitsOf(log)| {
      CommitAt(log, i);
    }
    forall i: nat, j: nat | IsCommitOf(log, i, e) && IsCommitOf(log, j, e) ensures i == j {
      assert RowOk(log[i], |CommitsOf(log[..i])|) && RowOk(log[j], |CommitsOf(log[..j])|);
      if i < j {
        CommitsOfEarlier(log, i, j);
      } else if j < i {
        CommitsOfEarlier(log, j, i);
      }
    }
  }

  // ---------------------------------------------------------------- the invariant

  ghost predicate EpochsOk(db: Db)
    requires Contiguous(db)
  {
    forall c :: c in db.channels ==> LogOk(Log(db, c)) && db.channels[c].currentEpoch == |CommitsOf(Log(db, c))|
  }

  /** UNIQUE (uploader_device_id, client_operation_id). */
  ghost predicate OperationsUnique(db: Db) {
    forall p, q | p in db.messages && q in db.messages ::
      (db.messages[p].device == db.messages[q].device && db.messages[p].operation == db.messages[q].operation)
      ==> p == q
  }

  ghost predicate TargetOk(db: Db, id: EventId)
    requires id in db.events
  {
    var e := db.events[id];
    match e.target
    case None => e.kind == Message || e.kind == Attachment
    case Some(t) =>
      && t in db.events
      && db.events[t].at.channel == e.at.channel
      && db.events[t].at.sequence < e.at.sequence
      && (db.events[t].kind == Message || db.events[t].kind == Attachment)
      && (e.kind == Edit ==> db.events[t].kind == Message && db.events[t].user == e.user)
  }

  /** The event row repeats the message it belongs to. */
  ghost predicate EventMatches(db: Db, id: EventId)
    requires id in db.events
  {
    var e := db.events[id];
    && e.at in db.messages
    && var row := db.messages[e.at];
    && row.messageClass == Application
    && row.user == e.user && row.device == e.device && row.acceptedEpoch == e.acceptedEpoch
  }

  ghost predicate EventsOk(db: Db) {
    && (forall id :: id in db.events ==> EventMatches(db, id) && TargetOk(db, id))
    && (forall i, j :: i in db.events && j in db.events && db.events[i].at == db.events[j].at ==> i == j)
    && (forall p :: p in db.messages && db.messages[p].messageClass == Application ==>
          exists id :: IsEventAt(db, id, p))
  }

  ghost predicate LinkOk(db: Db, a: AttachmentId)
    requires a in db.attachments
  {
    var row := db.attachments[a];
    row.event.Some? ==>
      && row.event.value in db.events
      && var e := db.events[row.event.value];
      && e.kind == Attachment && e.at.channel == row.channel && e.user == row.user && e.device == row.device
  }

  ghost predicate AttachmentsOk(db: Db) {
    && (forall a :: a in db.attachments ==> LinkOk(db, a))
    && (forall id :: id in db.events && db.events[id].kind == Attachment ==> 1 <= |LinkedAttachments(db, id)| <= 10)
  }

  ghost predicate CursorOk(db: Db, key: CursorKey)
    requires key in db.cursors
  {
    && key.channel in db.channels
    && db.cursors[key].acknowledged <= db.cursors[key].delivered < db.channels[key.channel].nextSequence
    && db.cursors[key].acknowledgedEpoch <= db.channels[key.channel].currentEpoch
  }

  ghost predicate CursorsOk(db: Db) {
    forall key :: key in db.cursors ==> CursorOk(db, key)
  }

  ghost predicate Inv(db: Db) {
    && db.channels.Keys <= db.encrypted
    && Contiguous(db)
    && EpochsOk(db)
    && OperationsUnique(db)
    && EventsOk(db)
    && AttachmentsOk(db)
    && CursorsOk(db)
  }

  // ---------------------------------------------------------------- one accepted submission

  ghost predicate FreshlyAccepted(db: Db, req: Submission) {
    var reply := Decide(db, req);
    reply.Accepted? && !reply.replayed
  }

  ghost predicate StorableEvent(db: Db, req: Submission, e: EventRequest) {
    && EventShapeOk(e)
    && e.eventId !in db.events
    && (e.target.Some? ==>
          TargetExists(db.events, req.channel, e.kind, e.target.value) && MayMutate(db.events, req, e.kind, e.target.value))
    && forall a :: a in e.attachments ==> Linkable(db.attachments, req, a)
  }

  ghost predicate Storable(db: Db, req: Submission) {
    && req.channel in db.encrypted && req.channel in db.channels
    && !OperationUsed(db, req.device, req.operation)
    && EpochOk(db.channels[req.channel], req)
    && (req.messageClass == Welcome <==> req.recipient.Some?)
    && (req.messageClass == Application <==> req.event.Some?)
    && (req.event.Some? ==> StorableEvent(db, req, req.event.value))
  }

  /** A submission is stored exactly when it passes every check of the handler. */
  lemma AcceptedMeans(db: Db, req: Submission)
    ensures FreshlyAccepted(db, req) <==> Storable(db, req) && RecipientOk(db.active, req)
  {}

  lemma StoredContiguous(db: Db, req: Submission)
    requires Contiguous(db) && req.channel in db.channels
    ensures Contiguous(Stored(db, req)) && Stored(db, req).channels.Keys == db.channels.Keys
  {}

  lemma StoredLogHere(db: Db, req: Submission)
    requires Contiguous(db) && req.channel in db.channels && Contiguous(Stored(db, req))
    ensures Log(Stored(db, req), req.channel) == Log(db, req.channel) + [NewRow(req)]
  {}

  lemma StoredLogElsewhere(db: Db, req: Submission, c: ChannelId)
    requires Contiguous(db) && req.channel in db.channels && Contiguous(Stored(db, req))
    requires c in db.channels && c != req.channel
    ensures c in Stored(db, req).channels && Log(Stored(db, req), c) == Log(db, c)
  {}

  lemma StoredLog(db: Db, req: Submission)
    requires Contiguous(db) && req.channel in db.channels
    ensures var db' := Stored(db, req);
            && Contiguous(db') && db'.channels.Keys == db.channels.Keys
            && Log(db', req.channel) == Log(db, req.channel) + [NewRow(req)]
            && forall c :: c in db.channels && c != req.channel ==> Log(db', c) == Log(db, c)
  {
    StoredContiguous(db, req);
    StoredLogHere(db, req);
    forall c | c in db.channels && c != req.channel ensures Log(Stored(db, req), c) == Log(db, c) {
      StoredLogElsewhere(db, req, c);
    }
  }

  /** The log of the channel a submission is stored in. */
  lemma StoredOwnLog(db: Db, req: Submission)
    requires Contiguous(db) && EpochsOk(db) && Storable(db, req)
    ensures var log := Log(db, req.channel) + [NewRow(req)];
            LogOk(log) && Stored(db, req).channels[req.channel].currentEpoch == |CommitsOf(log)|
  {
    var log := Log(db, req.channel);
    assert LogOk(log) && db.channels[req.channel].currentEpoch == |CommitsOf(log)|;
    LogOkAppend(log, NewRow(req));
    CommitsOfAppend(log, NewRow(req));
  }

  lemma StoredEpochs(db: Db, req: Submission)
    requires Contiguous(db) && EpochsOk(db) && Storable(db, req)
    ensures Contiguous(Stored(db, req)) && EpochsOk(Stored(db, req))
  {
    StoredLog(db, req);
    StoredOwnLog(db, req);
    var db' := Stored(db, req);
    forall c | c in db'.channels
      ensures LogOk(Log(db', c)) && db'.channels[c].currentEpoch == |CommitsOf(Log(db', c))|
    {
      if c != req.channel {
        assert LogOk(Log(db, c)) && db.channels[c].currentEpoch == |CommitsOf(Log(db, c))|;
      }
    }
  }

  lemma StoredEventRow(db: Db, req: Submission, id: EventId)
    requires Contiguous(db) && EventsOk(db) && Storable(db, req) && id in Stored(db, req).events
    ensures EventMatches(Stored(db, req), id) && TargetOk(Stored(db, req), id)
  {
    if id in db.events {
      assert EventMatches(db, id) && TargetOk(db, id);
      assert Stored(db, req).events[id] == db.events[id];
    } else {
      var e := req.event.value;
      if e.target.Some? {
        assert EventMatches(db, e.target.value);
      }
    }
  }

  lemma StoredEventAt(db: Db, req: Submission, p: Position)
    requires Contiguous(db) && EventsOk(db) && Storable(db, req)
    requires p in Stored(db, req).messages && Stored(db, req).messages[p].messageClass == Application
    ensures exists id :: IsEventAt(Stored(db, req), id, p)
  {
    if p in db.messages {
      var id :| IsEventAt(db, id, p);
      assert IsEventAt(Stored(db, req), id, p);
    } else {
      assert IsEventAt(Stored(db, req), req.event.value.eventId, p);
    }
  }

  lemma StoredEventsDistinct(db: Db, req: Submission, i: EventId, j: EventId)
    requires Contiguous(db) && EventsOk(db) && Storable(db, req)
    requires i in Stored(db, req).events && j in Stored(db, req).events
    requires Stored(db, req).events[i].at == Stored(db, req).events[j].at
    ensures i == j
  {
    assert i in db.events ==> EventMatches(db, i);
    assert j in db.events ==> EventMatches(db, j);
  }

  lemma StoredEvents(db: Db, req: Submission)
    requires Contiguous(db) && EventsOk(db) && Storable(db, req)
    ensures EventsOk(Stored(db, req))
  {
    var db' := Stored(db, req);
    forall id | id in db'.events ensures EventMatches(db', id) && TargetOk(db', id) {
      StoredEventRow(db, req, id);
    }
    forall p | p in db'.messages && db'.messages[p].messageClass == Application
      ensures exists id :: IsEventAt(db', id, p)
    {
      StoredEventAt(db, req, p);
    }
    forall i, j | i in db'.events && j in db'.events && db'.events[i].at == db'.events[j].at ensures i == j {
      StoredEventsDistinct(db, req, i, j);
    }
  }

  /** All-or-nothing: a new event links exactly what it asked for, old events keep exactly what they had. */
  lemma StoredLinks(db: Db, req: Submission, id: EventId)
    requires AttachmentsOk(db) && Storable(db, req) && id in Stored(db, req).events
    ensures LinkedAttachments(Stored(db, req), id)
            == if id in db.events then LinkedAttachments(db, id) else Elements(req.event.value.attachments)
  {
    var db' := Stored(db, req);
    if id in db.events {
      forall a | a in db.attachments
        ensures a in LinkedAttachments(db', id) <==> a in LinkedAttachments(db, id)
      {
        if req.event.Some? && a in req.event.value.attachments {
          assert Linkable(db.attachments, req, a);
        }
      }
    } else {
      var ids := req.event.value.attachments;
      forall a | a in db.attachments
        ensures a in LinkedAttachments(db', id) <==> a in ids
      {
        assert LinkOk(db, a);
      }
      assert forall a :: a in ids ==> Linkable(db.attachments, req, a);
    }
  }

  lemma StoredLinkOk(db: Db, req: Submission, a: AttachmentId)
    requires AttachmentsOk(db) && Storable(db, req) && a in db.attachments
    ensures LinkOk(Stored(db, req), a)
  {
    assert LinkOk(db, a);
    if req.event.Some? && a in req.event.value.attachments {
      assert Linkable(db.attachments, req, a);
    }
  }

  lemma StoredAttachments(db: Db, req: Submission)
    requires AttachmentsOk(db) && Storable(db, req)
    ensures AttachmentsOk(Stored(db, req))
  {
    var db' := Stored(db, req);
    assert db'.attachments.Keys == db.attachments.Keys;
    forall a | a in db'.attachments ensures LinkOk(db', a) {
      StoredLinkOk(db, req, a);
    }
    forall id | id in db'.events && db'.events[id].kind == Attachment
      ensures 1 <= |LinkedAttachments(db', id)| <= 10
    {
      StoredLinks(db, req, id);
    }
  }

  lemma StoredOperations(db: Db, req: Submission)
    requires Contiguous(db) && OperationsUnique(db) && Storable(db, req)
    ensures OperationsUnique(Stored(db, req))
  {
    forall p | p in db.messages
      ensures db.messages[p].device != req.device || db.messages[p].operation != req.operation
    {
      assert !IsOperation(db, p, req.device, req.operation);
    }
  }

  lemma StoredCursors(db: Db, req: Submission)
    requires CursorsOk(db) && Storable(db, req)
    ensures CursorsOk(Stored(db, req))
  {
    var db' := Stored(db, req);
    forall key | key in db'.cursors ensures CursorOk(db', key) {
      assert CursorOk(db, key);
    }
  }

  lemma StoredKeepsInv(db: Db, req: Submission)
    requires Inv(db) && Storable(db, req)
    ensures Inv(Stored(db, req))
  {
    StoredEpochs(db, req);
    StoredEvents(db, req);
    StoredAttachments(db, req);
    StoredOperations(db, req);
    StoredCursors(db, req);
  }

  // ---------------------------------------------------------------- the other handlers

  /** Pages are cut from the visible entries: increasing sequences between the bounds, addressed to the device. */
  lemma {:induction false} VisibleSound(db: Db, c: ChannelId, d: DeviceId, lo: nat, hi: nat, i: nat)
    requires i < |Visible(db, c, d, lo, hi)|
    ensures var v := Visible(db, c, d, lo, hi);
            && lo < v[i].sequence <= hi
            && Position(c, v[i].sequence) in db.messages
            && v[i].row == db.messages[Position(c, v[i].sequence)]
            && Addressed(v[i].row, d)
            && (i > 0 ==> v[i - 1].sequence < v[i].sequence)
  {
    var before := Visible(db, c, d, lo, hi - 1);
    if i < |before| {
      VisibleSound(db, c, d, lo, hi - 1, i);
    } else if i > 0 {
      VisibleSound(db, c, d, lo, hi - 1, i - 1);
    }
  }

  /** An entry is visible exactly when it stands in the log between the bounds and is no Welcome of another device. */
  lemma {:induction false} VisibleExactly(db: Db, c: ChannelId, d: DeviceId, lo: nat, hi: nat, e: Delivered)
    ensures e in Visible(db, c, d, lo, hi) <==>
              && lo < e.sequence <= hi && Position(c, e.sequence) in db.messages
              && e.row == db.messages[Position(c, e.sequence)]
              && (e.row.messageClass == Welcome ==> e.row.recipient == Some(d))
  {
    if hi > lo {
      VisibleExactly(db, c, d, lo, hi - 1, e);
    }
  }

  lemma PageEnd(db: Db, c: ChannelId, d: DeviceId, after: nat, requested: int)
    requires c in db.channels
    ensures var page := Page(db, c, d, after, requested);
            page != [] ==> after < EndOf(page, after) < db.channels[c].nextSequence
  {
    var page := Page(db, c, d, after, requested);
    if page != [] {
      VisibleSound(db, c, d, after, db.channels[c].nextSequence - 1, |page| - 1);
    }
  }

  lemma InitializedLog(db: Db, c: ChannelId, d: DeviceId)
    requires Contiguous(db) && EpochsOk(db) && c !in db.channels
    ensures var db' := db.(channels := db.channels[c := ChannelState(0, 1, d)]);
            Contiguous(db') && EpochsOk(db')
  {
    var db' := db.(channels := db.channels[c := ChannelState(0, 1, d)]);
    assert Contiguous(db');
    forall k | k in db'.channels
      ensures LogOk(Log(db', k)) && db'.channels[k].currentEpoch == |CommitsOf(Log(db', k))|
    {
      if k == c {
        assert Log(db', c) == [];
      } else {
        assert Log(db', k) == Log(db, k);
      }
    }
  }

  lemma InitializedCursors(db: Db, c: ChannelId, d: DeviceId)
    requires CursorsOk(db) && c !in db.channels
    ensures CursorsOk(db.(channels := db.channels[c := ChannelState(0, 1, d)]))
  {
    var db' := db.(channels := db.channels[c := ChannelState(0, 1, d)]);
    forall key | key in db'.cursors ensures CursorOk(db', key) {
      assert CursorOk(db, key);
    }
  }

  lemma InitializedKeepsInv(db: Db, c: ChannelId, d: DeviceId, isOwner: bool)
    requires Inv(db)
    ensures Inv(Initialized(db, c, d, isOwner))
  {
    if c !in db.channels {
      InitializedLog(db, c, d);
      InitializedCursors(db, c, d);
      SameLinks(db, db.(channels := db.channels[c := ChannelState(0, 1, d)]));
    }
  }

  /** Rows may be added unlinked or marked deleted; nothing else about an attachment changes. */
  ghost predicate LinksKept(before: map<AttachmentId, AttachmentRow>, after: map<AttachmentId, AttachmentRow>) {
    && before.Keys <= after.Keys
    && (forall a :: a in before ==> after[a] == before[a].(deleted := after[a].deleted))
    && (forall a :: a in after && a !in before ==> after[a].event == None)
  }

  lemma UploadedLinks(db: Db, id: AttachmentId, c: ChannelId, u: UserId, d: DeviceId, e: Option<Time>)
    ensures LinksKept(db.attachments, Uploaded(db, id, c, u, d, e).attachments)
  {}

  lemma SweptLinks(db: Db, id: AttachmentId, now: Time)
    ensures LinksKept(db.attachments, Swept(db, id, now).attachments)
  {}

  /** Events and links depend only on the events, messages and links of the state. */
  lemma SameLinks(db: Db, db': Db)
    requires EventsOk(db) && AttachmentsOk(db)
    requires db'.messages == db.messages && db'.events == db.events
    requires LinksKept(db.attachments, db'.attachments)
    ensures EventsOk(db') && AttachmentsOk(db')
    ensures forall id :: id in db.events ==> LinkedAttachments(db', id) == LinkedAttachments(db, id)
  {
    forall id | id in db.events
      ensures EventMatches(db', id) && TargetOk(db', id) && LinkedAttachments(db', id) == LinkedAttachments(db, id)
    {
      assert EventMatches(db, id) && TargetOk(db, id);
      assert forall a :: a in LinkedAttachments(db', id) <==> a in LinkedAttachments(db, id);
    }
    forall p | p in db'.messages && db'.messages[p].messageClass == Application
      ensures exists id :: IsEventAt(db', id, p)
    {
      var id :| IsEventAt(db, id, p);
      assert IsEventAt(db', id, p);
    }
    forall a | a in db'.attachments ensures LinkOk(db', a) {
      if a in db.attachments {
        assert LinkOk(db, a);
      }
    }
  }

  /** A handler that leaves messages, events and channels alone keeps the log part of the invariant. */
  lemma SameLog(db: Db, db': Db)
    requires db.channels.Keys <= db.encrypted && Contiguous(db) && EpochsOk(db) && OperationsUnique(db)
    requires db'.encrypted == db.encrypted && db'.messages == db.messages && db'.channels == db.channels
    ensures db'.channels.Keys <= db'.encrypted && Contiguous(db') && EpochsOk(db') && OperationsUnique(db')
  {
    assert Contiguous(db');
    assert EpochsOk(db') by {
      assert forall c :: c in db.channels ==> Log(db', c) == Log(db, c);
    }
    SameOperations(db, db');
  }

  lemma SameOperations(db: Db, db': Db)
    requires OperationsUnique(db) && db'.messages == db.messages
    ensures OperationsUnique(db')
  {}

  lemma SideStepKeepsInv(db: Db, db': Db)
    requires Inv(db) && CursorsOk(db')
    requires db'.encrypted == db.encrypted && db'.messages == db.messages && db'.channels == db.channels
    requires db'.events == db.events
    requires LinksKept(db.attachments, db'.attachments)
    ensures Inv(db')
  {
    SameLog(db, db');
    SameLinks(db, db');
  }

  lemma FetchedCursors(db: Db, c: ChannelId, d: DeviceId, after: nat, requested: int)
    requires CursorsOk(db)
    ensures CursorsOk(Fetched(db, c, d, after, requested))
  {
    var db' := Fetched(db, c, d, after, requested);
    if CanFetch(db, c) {
      PageEnd(db, c, d, after, requested);
    }
    forall key | key in db'.cursors ensures CursorOk(db', key) {
      assert key in db.cursors ==> CursorOk(db, key);
    }
  }

  lemma AcknowledgedCursors(db: Db, key: CursorKey, sequence: nat, epoch: nat)
    requires CursorsOk(db)
    ensures CursorsOk(Acknowledged(db, key, sequence, epoch))
  {
    var db' := Acknowledged(db, key, sequence, epoch);
    forall k | k in db'.cursors ensures CursorOk(db', k) {
      assert CursorOk(db, k);
    }
  }

  lemma SameCursors(db: Db, db': Db)
    requires CursorsOk(db) && db'.channels == db.channels && db'.cursors == db.cursors
    ensures CursorsOk(db')
  {
    forall k | k in db'.cursors ensures CursorOk(db', k) {
      assert CursorOk(db, k);
    }
  }

  lemma SubmittedKeepsInv(db: Db, req: Submission)
    requires Inv(db)
    ensures Inv(Submitted(db, req))
  {
    AcceptedMeans(db, req);
    if Storable(db, req) {
      StoredKeepsInv(db, req);
    }
  }

  lemma CursorStepKeepsInv(db: Db, cursors: map<CursorKey, Cursor>)
    requires Inv(db) && CursorsOk(db.(cursors := cursors))
    ensures Inv(db.(cursors := cursors))
  {
    SideStepKeepsInv(db, db.(cursors := cursors));
  }

  lemma FetchedKeepsInv(db: Db, c: ChannelId, d: DeviceId, after: nat, requested: int)
    requires Inv(db)
    ensures Inv(Fetched(db, c, d, after, requested))
  {
    FetchedCursors(db, c, d, after, requested);
    CursorStepKeepsInv(db, Fetched(db, c, d, after, requested).cursors);
  }

  lemma AcknowledgedKeepsInv(db: Db, key: CursorKey, sequence: nat, epoch: nat)
    requires Inv(db)
    ensures Inv(Acknowledged(db, key, sequence, epoch))
  {
    AcknowledgedCursors(db, key, sequence, epoch);
    CursorStepKeepsInv(db, Acknowledged(db, key, sequence, epoch).cursors);
  }

  lemma AttachmentStepKeepsInv(db: Db, db': Db)
    requires Inv(db)
    requires db' == db.(attachments := db'.attachments, active := db'.active, enrolled := db'.enrolled)
    requires LinksKept(db.attachments, db'.attachments)
    ensures Inv(db')
  {
    SameCursors(db, db');
    SideStepKeepsInv(db, db');
  }

  lemma UploadedKeepsInv(db: Db, id: AttachmentId, c: ChannelId, u: UserId, d: DeviceId, e: Option<Time>)
    requires Inv(db)
    ensures Inv(Uploaded(db, id, c, u, d, e))
  {
    UploadedLinks(db, id, c, u, d, e);
    AttachmentStepKeepsInv(db, Uploaded(db, id, c, u, d, e));
  }

  lemma SweptKeepsInv(db: Db, id: AttachmentId, now: Time)
    requires Inv(db)
    ensures Inv(Swept(db, id, now))
  {
    SweptLinks(db, id, now);
    AttachmentStepKeepsInv(db, Swept(db, id, now));
  }

  lemma DevicesKeepInv(db: Db, active: set<DeviceId>, enrolled: set<DeviceId>)
    requires Inv(db)
    ensures Inv(db.(active := active, enrolled := enrolled))
  {
    AttachmentStepKeepsInv(db, db.(active := active, enrolled := enrolled));
  }

  lemma QuietStepKeepsInv(db: Db, op: Op)
    requires Inv(db) && !op.SubmitOp? && !op.FetchOp?
    ensures Inv(QuietStep(db, op))
  {
    match op
    case InitializeOp(c, d, isOwner) => InitializedKeepsInv(db, c, d, isOwner);
    case AcknowledgeOp(key, sequence, epoch) => AcknowledgedKeepsInv(db, key, sequence, epoch);
    case UploadOp(id, c, u, d, e) => UploadedKeepsInv(db, id, c, u, d, e);
    case SweepOp(id, now) => SweptKeepsInv(db, id, now);
    case DevicesOp(active, enrolled) => DevicesKeepInv(db, active, enrolled);
  }

  /** Every handler keeps the invariant. */
  lemma StepKeepsInv(db: Db, op: Op)
    requires Inv(db)
    ensures Inv(Step(db, op))
  {
    if op.SubmitOp? {
      SubmittedKeepsInv(db, op.req);
    } else if op.FetchOp? {
      FetchedKeepsInv(db, op.channel, op.device, op.after, op.requested);
    } else {
      QuietStepKeepsInv(db, op);
    }
  }

  /** The invariant holds after every run of the service. */
  lemma {:induction false} RunKeepsInv(db: Db, ops: seq<Op>)
    requires Inv(db)
    ensures Inv(Run(db, ops))
  {
    if ops != [] {
      RunKeepsInv(db, ops[..|ops| - 1]);
      StepKeepsInv(Run(db, ops[..|ops| - 1]), ops[|ops| - 1]);
    }
  }

  lemma EmptyInv(encrypted: set<ChannelId>)
    ensures Inv(Empty(encrypted))
  {}

  /** A server with nothing delivered yet, and any requests. */
  lemma FromTheStart(encrypted: set<ChannelId>, ops: seq<Op>)
    ensures Inv(Run(Empty(encrypted), ops))
  {
    EmptyInv(encrypted);
    RunKeepsInv(Empty(encrypted), ops);
  }
}
