/** A short run in which an accepted message with an attachment is repeated after the attachment has expired. */
module DeliveryExample {
  import opened Common
  import opened Delivery
  import opened DeliveryInvariant
  import opened DeliveryTheorems

  const CHANNEL: ChannelId := 0
  const SENDER: DeviceId := 1
  const OWNER: UserId := 9
  const FILE: AttachmentId := 7

  /** Device 1 initializes the channel and uploads a file that expires at time 10. */
  function Setup(): seq<Op> {
    [DevicesOp({SENDER}, {SENDER}), InitializeOp(CHANNEL, SENDER, true),
     UploadOp(FILE, CHANNEL, OWNER, SENDER, Some(10))]
  }

  function Request(): Submission {
    Submission(CHANNEL, OWNER, SENDER, true, 5, Application, 0, None, None, OtherWire([]),
               Some(EventRequest(3, Attachment, None, [FILE])), 0)
  }

  function Ready(): Db {
    Db({CHANNEL}, {SENDER}, {SENDER}, map[], map[],
       map[FILE := AttachmentRow(CHANNEL, None, OWNER, SENDER, Some(10), false)],
       map[CHANNEL := ChannelState(0, 1, SENDER)], map[])
  }

  lemma SetupLeadsToReady()
    ensures Run(Empty({CHANNEL}), Setup()) == Ready()
  {
    var ops := Setup();
    assert ops[..2] == [ops[0], ops[1]] && ops[..2][..1] == [ops[0]] && ops[..1][..0] == [];
    assert Run(Empty({CHANNEL}), ops[..1]) == Step(Empty({CHANNEL}), ops[0]);
    assert Run(Empty({CHANNEL}), ops[..2]) == Step(Step(Empty({CHANNEL}), ops[0]), ops[1]);
  }

  lemma RequestIsAccepted()
    ensures FreshlyAccepted(Ready(), Request())
  {
    assert Elements([FILE]) == {FILE};
  }

  lemma SweepDeletes(db: Db)
    requires FILE in db.attachments && Expired(db.attachments[FILE], 10)
    ensures Run(db, [SweepOp(FILE, 10)]) == Swept(db, FILE, 10)
    ensures Swept(db, FILE, 10).attachments[FILE].deleted
  {
    assert [SweepOp(FILE, 10)][..0] == [];
  }

  lemma StoredFileExpires()
    ensures var stored := Submitted(Ready(), Request());
            && FILE in stored.attachments && Expired(stored.attachments[FILE], 10)
            && stored.encrypted == {CHANNEL} && stored.active == {SENDER}
  {
    RequestIsAccepted();
  }

  /** From the empty server: the request is accepted, the file expires, and the identical request is a conflict. */
  lemma RetryAfterExpiry()
    ensures var db := Run(Empty({CHANNEL}), Setup());
            && FreshlyAccepted(db, Request())
            && Decide(Run(Submitted(db, Request()), [SweepOp(FILE, 10)]), Request()) == Rejected(OperationConflict)
  {
    SetupLeadsToReady();
    EmptyInv({CHANNEL});
    RunKeepsInv(Empty({CHANNEL}), Setup());
    RequestIsAccepted();
    StoredFileExpires();
    SweepDeletes(Submitted(Ready(), Request()));
    ExactlyOnce(Ready(), Request(), [SweepOp(FILE, 10)], Request());
    assert FILE in AttachmentsOf(Request());
  }
}
