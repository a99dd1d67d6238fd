/**
 The handlers of the ordered delivery service, as they update the tables in place.
 Every handler runs without an await, so it is one atomic step; a transaction that
 throws restores what it had written.
 */
module DeliveryService {
  import opened Common
  import opened Delivery
  import opened DeliveryInvariant
  import opened DeliveryTheorems

  datatype InitializeReply = InitializeRejected(error: Error) | Group(created: bool, state: ChannelState)

  datatype FetchReply =
    | FetchRejected
    | FetchPage(page: seq<Delivered>, delivered: nat, currentEpoch: nat, nextSequence: nat)

  class Service {
    const encrypted: set<ChannelId>
    var active: set<DeviceId>
    var enrolled: set<DeviceId>
    var messages: map<Position, MessageRow>
    var events: map<EventId, EventRow>
    var attachments: map<AttachmentId, AttachmentRow>
    var channels: map<ChannelId, ChannelState>
    var cursors: map<CursorKey, Cursor>

    ghost function State(): Db
      reads this
    {
      Db(encrypted, active, enrolled, messages, events, attachments, channels, cursors)
    }

    ghost predicate Valid()
      reads this
    {
      Inv(State())
    }

    constructor (encrypted: set<ChannelId>)
      ensures Valid() && State() == Empty(encrypted)
    {
      this.encrypted := encrypted;
      active, enrolled, messages, events, attachments, channels, cursors := {}, {}, map[], map[], map[], map[], map[];
      new;
      EmptyInv(encrypted);
    }

    method Initialize(channel: ChannelId, device: DeviceId, isOwner: bool) returns (reply: InitializeReply)
      requires Valid()
      modifies this
      ensures Valid() && State() == Initialized(old(State()), channel, device, isOwner)
      ensures match InitializeError(old(State()), channel, device, isOwner)
              case Some(error) => reply == InitializeRejected(error)
              case None => reply.Group? && reply.created == (channel !in old(channels))
                           && channel in channels && reply.state == channels[channel]
    {
      InitializedKeepsInv(State(), channel, device, isOwner);
      if channel !in encrypted {
        return InitializeRejected(EncryptedChannelRequired);
      }
      if channel in channels {
        return Group(false, channels[channel]);
      }
      if !isOwner {
        return InitializeRejected(OwnerRequired);
      }
      if device !in enrolled {
        return InitializeRejected(EnrollmentRequired);
      }
      channels := channels[channel := ChannelState(0, 1, device)];
      return Group(true, channels[channel]);
    }

    /** The comparison of a returning operation with the row that already used its id. */
    method CompareOperation(p: Position, req: Submission) returns (same: bool)
      requires Valid() && p in messages && Prevalidated(State(), req)
      ensures same <==> SameOperation(State(), p, req)
    {
      var requested: set<AttachmentId> := {};
      var requestedCount := 0;
      if req.event.Some? {
        requested := Elements(req.event.value.attachments);
        requestedCount := |req.event.value.attachments|;
      }
      if id :| id in events && events[id].at == p {
        var existing := SortIds(set a | a in attachments && attachments[a].event == Some(id) && !attachments[a].deleted);
        var sorted := SortIds(requested);
        if existing == sorted {
          assert Elements(existing) == Elements(sorted);
        } else if Elements(existing) == Elements(sorted) {
          AscendingUnique(existing, sorted);
        }
        same := p.channel == req.channel && SameRow(messages[p], req)
                && req.event.Some? && req.event.value.eventId == id
                && events[id].kind == req.event.value.kind && events[id].target == req.event.value.target
                && existing == sorted;
        assert IsEventAt(State(), id, p);
        assert LiveAttachments(State(), id) == Elements(existing);
      } else {
        same := p.channel == req.channel && SameRow(messages[p], req) && req.event.None?;
      }
    }

    /** UPDATE ... SET event_id WHERE id IN (...) AND ...: links what it may and counts the changed rows. */
    method LinkAttachments(req: Submission, ids: seq<AttachmentId>, event: EventId) returns (changes: nat)
      requires |Elements(ids)| == |ids|
      modifies this`attachments
      ensures attachments.Keys == old(attachments).Keys
      ensures changes == |ids| <==> forall a :: a in ids ==> Linkable(old(attachments), req, a)
      ensures changes == |ids| ==> attachments == LinkAll(old(attachments), Elements(ids), event)
    {
      changes := 0;
      for i := 0 to |ids|
        invariant changes <= i
        invariant changes == i <==> forall k :: 0 <= k < i ==> Linkable(old(attachments), req, ids[k])
        invariant attachments.Keys == old(attachments).Keys
        invariant forall a :: a in old(attachments) ==>
                    attachments[a] == if a in ids[..i] && Linkable(old(attachments), req, a)
                                      then old(attachments)[a].(event := Some(event)) else old(attachments)[a]
      {
        var a := ids[i];
        if a in ids[..i] {
          var k :| 0 <= k < i && ids[k] == a;
          NoRepetition(ids, k, i);
        }
        assert ids[..i + 1] == ids[..i] + [a];
        if Linkable(attachments, req, a) {
          attachments := attachments[a := attachments[a].(event := Some(event))];
          changes := changes + 1;
        }
      }
      assert ids[..|ids|] == ids;
    }

    /** The checks on a routed event's target; no table is written before them. */
    method CheckTarget(req: Submission, e: EventRequest) returns (problem: Option<Error>)
      ensures e.target.None? ==> problem == None
      ensures e.target.Some? ==>
                problem == if !TargetExists(events, req.channel, e.kind, e.target.value) then Some(InvalidEventReference)
                           else if !MayMutate(events, req, e.kind, e.target.value) then Some(ForbiddenEventMutation)
                           else None
    {
      problem := None;
      if e.target.Some? {
        if !TargetExists(events, req.channel, e.kind, e.target.value) {
          return Some(InvalidEventReference);
        }
        if !MayMutate(events, req, e.kind, e.target.value) {
          return Some(ForbiddenEventMutation);
        }
      }
    }

    /** The INSERTs and UPDATEs of the transaction, undone as a whole when a constraint or the link count fails. */
    method Insert(req: Submission, state: ChannelState) returns (problem: Option<Error>)
      requires req.channel in channels && channels[req.channel] == state
      requires RoutingOk(req)
      modifies this`messages, this`events, this`attachments, this`channels
      ensures problem == if req.event.None? then None
                         else if req.event.value.eventId in old(events) then Some(DuplicateEvent)
                         else if exists a :: a in req.event.value.attachments && !Linkable(old(attachments), req, a)
                         then Some(InvalidAttachmentReference) else None
      ensures State() == if problem == None then Stored(old(State()), req) else old(State())
    {
      var savedMessages, savedEvents, savedAttachments := messages, events, attachments;
      var at := Position(req.channel, state.nextSequence);
      messages := messages[at := NewRow(req)];
      if req.event.Some? {
        var e := req.event.value;
        if e.eventId in events {
          messages := savedMessages;
          return Some(DuplicateEvent);
        }
        events := events[e.eventId := NewEvent(req, e, at)];
        if |e.attachments| > 0 {
          var changes := LinkAttachments(req, e.attachments, e.eventId);
          if changes != |e.attachments| {
            messages, events, attachments := savedMessages, savedEvents, savedAttachments;
            return Some(InvalidAttachmentReference);
          }
        } else {
          assert LinkAll(attachments, Elements(e.attachments), e.eventId) == attachments;
        }
      }
      var epoch := if req.messageClass == Commit then req.acceptedEpoch else state.currentEpoch;
      channels := channels[req.channel := state.(currentEpoch := epoch, nextSequence := state.nextSequence + 1)];
      problem := None;
    }

    /** The rest of the transaction for an operation id that was not used before. */
    method AcceptNew(req: Submission) returns (reply: Reply)
      requires Prevalidated(State(), req) && !OperationUsed(State(), req.device, req.operation)
      modifies this`messages, this`events, this`attachments, this`channels
      ensures reply == Decide(old(State()), req)
      ensures State() == Submitted(old(State()), req)
    {
      if req.channel !in channels {
        return Rejected(NotInitialized);
      }
      var state := channels[req.channel];
      if !EpochOk(state, req) {
        return Rejected(EpochConflict(state.currentEpoch, state.nextSequence));
      }
      if req.event.Some? {
        var targetProblem := CheckTarget(req, req.event.value);
        if targetProblem.Some? {
          return Rejected(targetProblem.value);
        }
      }
      var problem := Insert(req, state);
      if problem.Some? {
        return Rejected(problem.value);
      }
      return Accepted(Position(req.channel, state.nextSequence), NewRow(req), false);
    }

    /** POST /mls/messages. */
    method Submit(req: Submission) returns (reply: Reply)
      requires Valid()
      modifies this`messages, this`events, this`attachments, this`channels
      ensures Valid()
      ensures reply == Decide(old(State()), req)
      ensures State() == Submitted(old(State()), req)
    {
      SubmittedKeepsInv(State(), req);
      if req.channel !in encrypted {
        return Rejected(EncryptedChannelRequired);
      }
      if !RecipientOk(active, req) {
        return Rejected(InvalidRecipient);
      }
      if !RoutingOk(req) {
        return Rejected(InvalidEventRouting);
      }
      if p :| p in messages && messages[p].device == req.device && messages[p].operation == req.operation {
        var same := CompareOperation(p, req);
        UsedOperationDecision(State(), p, req);
        return if same then Accepted(p, messages[p], true) else Rejected(OperationConflict);
      }
      assert !OperationUsed(State(), req.device, req.operation);
      reply := AcceptNew(req);
    }

    /** The SELECT ... ORDER BY server_sequence LIMIT of a fetch. */
    method SelectPage(channel: ChannelId, device: DeviceId, after: nat, requested: int)
      returns (page: seq<Delivered>)
      requires channel in channels
      ensures page == Page(State(), channel, device, after, requested)
    {
      var limit := ClampLimit(requested);
      page := [];
      var s := after;
      var last := channels[channel].nextSequence - 1;
      while s < last && |page| < limit
        invariant after <= s && (s == after || s <= last)
        invariant |page| <= limit
        invariant page == Visible(State(), channel, device, after, s)
      {
        s := s + 1;
        var p := Position(channel, s);
        if p in messages && Addressed(messages[p], device) {
          page := page + [Delivered(s, messages[p])];
        }
      }
      if s <= last {
        VisibleSplit(State(), channel, device, after, s, last);
      }
    }

    method Serve(channel: ChannelId, device: DeviceId, after: nat, requested: int) returns (reply: FetchReply)
      modifies this`cursors
      ensures State() == Fetched(old(State()), channel, device, after, requested)
      ensures if !CanFetch(State(), channel) then reply == FetchRejected
              else var page := Page(old(State()), channel, device, after, requested);
                   reply == FetchPage(page, EndOf(page, after), channels[channel].currentEpoch,
                                      channels[channel].nextSequence)
    {
      if channel !in encrypted || channel !in channels {
        return FetchRejected;
      }
      var page := SelectPage(channel, device, after, requested);
      var delivered := EndOf(page, after);
      if |page| > 0 {
        cursors := MovedTo(cursors, CursorKey(channel, device), delivered);
      }
      return FetchPage(page, delivered, channels[channel].currentEpoch, channels[channel].nextSequence);
    }

    /** GET /mls/messages. */
    method Fetch(channel: ChannelId, device: DeviceId, after: nat, requested: int) returns (reply: FetchReply)
      requires Valid()
      modifies this`cursors
      ensures Valid() && State() == Fetched(old(State()), channel, device, after, requested)
      ensures if !CanFetch(State(), channel) then reply == FetchRejected
              else var page := Page(old(State()), channel, device, after, requested);
                   reply == FetchPage(page, EndOf(page, after), channels[channel].currentEpoch,
                                      channels[channel].nextSequence)
    {
      FetchedKeepsInv(State(), channel, device, after, requested);
      reply := Serve(channel, device, after, requested);
    }

    method SaveAcknowledgement(key: CursorKey, sequence: nat, epoch: nat) returns (ok: bool)
      modifies this`cursors
      ensures State() == Acknowledged(old(State()), key, sequence, epoch)
      ensures ok <==> CanAcknowledge(old(State()), key, sequence, epoch)
    {
      if key.channel !in channels || key !in cursors {
        return false;
      }
      var cursor := cursors[key];
      if sequence > cursor.delivered || sequence < cursor.acknowledged
         || epoch > channels[key.channel].currentEpoch || epoch < cursor.acknowledgedEpoch
      {
        return false;
      }
      cursors := cursors[key := cursor.(acknowledged := sequence, acknowledgedEpoch := epoch)];
      return true;
    }

    /** POST /mls/ack: refused when ahead of delivery or behind saved state. */
    method Acknowledge(key: CursorKey, sequence: nat, epoch: nat) returns (ok: bool)
      requires Valid()
      modifies this`cursors
      ensures Valid() && State() == Acknowledged(old(State()), key, sequence, epoch)
      ensures ok <==> CanAcknowledge(old(State()), key, sequence, epoch)
    {
      AcknowledgedKeepsInv(State(), key, sequence, epoch);
      ok := SaveAcknowledgement(key, sequence, epoch);
    }
  }
}
