# Yappa, verified

A model of the stateful core of Yappa - the chat server, its native MLS client and its media plugin -
in Dafny, with proofs of what the pieces guarantee together. `dafny verify dfyconfig.toml` checks
everything; no proof assumes anything that is not stated in a contract.

## What is modelled

- **Ordered MLS delivery** (`delivery*.dfy`): the tables and handlers that initialize a channel, accept
  messages, serve pages and take acknowledgements. Every handler is one atomic step.
- **Agreement** (`mls_group.dfy`, `agreement.dfy`, `progress.dfy`, `agreement_restarts.dfy`): that service composed
  with any number of devices over a network that delays, repeats, reorders and loses requests and answers. Devices
  follow the caller contract of `lib.rs`: prepare, submit, then accept or reject on the answer. A group is the list
  of commits it has merged and at most one pending commit (sections 12.4 and 14 of RFC 9420). In
  `agreement_restarts.dfy` any device may also be replaced by any state it has saved, at any time.
- **Device state** (`bytes.dfy`, `state_*.dfy`): the three versions of the binary state format, export and
  import. **Staging** (`staging*.dfy`): receipts and outgoing messages of one device. **Restarts**
  (`restart*.dfy`, `mls_device.dfy`, `mls_exact.dfy`): operations, exports to files and imports of any of those files, in any
  order; an export or import that the format refuses fails. `vault_example.dfy` gives a storage layout that meets
  what the restart theorems assume of one.
- **Media rooms** (`media_*.dfy`): cached room state, leader and epoch rotation, the envelope relay and the
  sequence Map that successive states share by reference.
- **Encrypted-history transfers** (`history_*.dfy`), **key packages** (`key_package*.dfy`) and
  **pagination** (`pagination*.dfy`, `cursor_tokens.dfy`): the server's other life cycles.
- **Flutter standard codec** (`standard_codec.dfy`, `codec_*.dfy`), **UTF-8 sanitizer** (`utf8.dfy`) and
  **audio jitter ring** (`jitter*.dfy`) of the media plugin.
- **Limiters** (`limiter.dfy`, `limit_exact.dfy`, `auth_backoff*.dfy`, `lan_relay*.dfy`).
- Short concrete runs from a start state: `join_example.dfy`, `rollback_example.dfy`, `delivery_example.dfy`,
  `staging_examples.dfy`.

Each area has the same shape: values and step functions that say what the code does, a class whose methods
update the state in place as the source does and are proved to compute those functions, and lemmas about
the functions over all runs. The files `*_exact.dfy` and `*_layout.dfy` say what each step function comes to on the
stored fields and the request alone: the ordered list of requirements, with the limits in numbers (`checks.dfy`:
the answer is the error of the first that is not met), and the fields that are written.

A table is a map keyed by its primary key or UNIQUE columns; an identifier is a number whose order stands for the
order of the strings; a time is a number of milliseconds (nanoseconds in the jitter ring). What a handler takes from
the outside world - the caller's role, a verified signature or digest, the clock - is a parameter.

## Where the code does less than one might expect

Each of these is a proved statement, with the exact condition under which the expectation holds.

- An identical retry of a submission is a conflict once one of its linked attachments was deleted
  (`DeliveryTheorems.IdenticalRetry`, `DeliveryExample.RetryAfterExpiry`).
- An export can write a file that no import accepts (`StateExport.ImportUndoesExport`), for two reasons. The
  size is not looked at behind the count of an empty section (`StateExport.ExportThatCannotBeImported`). And
  `decrypt_application` (lib.rs:622-660) takes whatever credential the sender's leaf has, while `decode_state`
  (lib.rs:918-926) refuses an empty one or one over 1024 bytes: one message of such a member makes the whole
  saved state unrestorable until its receipt is cleared (`RestartTheorems.RestoredExactly`,
  `StagingExamples.NamelessSenderBlocksRestarts`).
- A received message whose plaintext is over 256 KiB uses up its ratchet secret and leaves no receipt
  (`StagingTheorems.OversizedIsLost`, `StagingExamples.OversizedIsGone`). The delivery handler stores wires of
  at most 131072 bytes (server.js:5672), so such a message reaches `stage_application` only by another path.
- Restarting from a file written before a message was staged forgets that its secret was used, and the message is
  decrypted again when it comes again (`RestartTheorems.DecryptedOnce`, `StagingExamples.DecryptedTwice`).
- A device that goes back to a state from before a commit of its own that the server has accepted cannot follow the
  group any more: it does not process its own commit, and has nothing pending to accept. Nobody else is affected
  (`Progress.CatchUpExactly`, `AgreementRestarts.BlockedForGood`, `AgreementRestarts.OthersRestartsDoNoHarm`,
  `RollbackExample.FirstIsLeftBehind`).
- Deleting a voice channel in use leaves a room state behind for good
  (`MediaTheorems.DeletionLeavesStaleRoom`, `MediaTheorems.DeletionIsForever`, `MediaTheorems.RoomOfDeletedChannel`).
- An empty list of 4- or 8-byte elements that is not aligned is not read back by the standard codec, and
  neither is anything with a size of 2^32 or more (`CodecExact.RoundTripExact`,
  `CodecExact.EmptyInt32ListIsOutOfStep`).
- Purging the LAN relay is visible to a client that reuses an expired nonce
  (`LanRelayPurges.PurgesShowOnlyInReusedNonces`, `LanRelayPurges.ReuseAfterFiveSeconds`).

## Model

| member | source | states |
|---|---|---|
| DeliveryInvariant.AcceptedMeans | server/src/server.js:5687-5932 | a submission is stored afresh exactly when every check of the handler passes and its operation id is unused; what the checks ask of the columns is spelled out in DeliveryExact.StoredExactly |
| DeliveryInvariant.StoredKeepsInv | server/src/server.js:5794-5942 | storing an accepted submission keeps every table invariant |
| DeliveryInvariant.StoredLinks | server/src/server.js:5901-5932 | attachments are linked all or nothing: the new event gets exactly those it asked for, every old event keeps exactly what it had |
| DeliveryInvariant.OneCommitPerEpoch | server/src/server.js:5794-5815 | every parent epoch below the current one has exactly one commit in the log |
| DeliveryInvariant.CommitAt | server/src/server.js:5794-5815 | a commit in the log is the commit of its parent epoch, counted among all accepted commits |
| DeliveryInvariant.StepKeepsInv | server/src/server.js:5500-6194 | every handler keeps the invariant |
| DeliveryInvariant.RunKeepsInv | server/src/db.js:280-371 | any run keeps the invariant |
| DeliveryInvariant.FromTheStart | server/src/db.js:280-371 | after any requests to a new server: sequences are exactly 1..next_sequence-1, current_epoch is the number of commits, every accepted_epoch is the number of commits at or before its entry, operation ids are unique per device, events and attachment links are consistent, and 0 <= acknowledged <= delivered < next_sequence |
| DeliveryInvariant.VisibleSound | server/src/server.js:6075-6119 | pages are cut from the entries visible to the device, in increasing sequence order between their bounds |
| DeliveryInvariant.VisibleExactly | server/src/server.js:6075-6091 | visible is exactly what stands in the log between the bounds and is no Welcome, or a Welcome whose recipient is the device |
| DeliveryTheorems.RunGrows | server/src/server.js:5741-6183 | over any run no stored row or event changes, no attachment is relinked, and every counter and cursor only rises |
| DeliveryTheorems.ReplayDecision | server/src/server.js:5742-5793 | how a returning operation id is answered, from the submission that used it |
| DeliveryTheorems.ExactlyOnce | server/src/server.js:5742-5793 | after a submission was accepted, no later submission with its device and operation id changes anything in any run; it gets the stored row if and only if it repeats every field and names exactly the original attachments not deleted since, otherwise a conflict |
| DeliveryTheorems.IdenticalRetry | server/src/server.js:5742-5793 | an identical retry gets the stored row if and only if none of its linked attachments was deleted |
| DeliveryExample.RetryAfterExpiry | server/src/server.js:7947-7983 | from the empty server: a message with an attachment is accepted, the sweep deletes the expired attachment, and the identical request is then a conflict |
| DeliveryTheorems.ChainsEnd | server/src/server.js:5817-5840 | following targets goes to strictly smaller server sequences of the same channel through message and attachment events only, and ends at an event without a target |
| DeliveryTheorems.EventOrigin | server/src/server.js:5881-5900 | every event of a run was stored by one accepted submission of that run |
| DeliveryTheorems.MutationsAuthorized | server/src/server.js:5841-5858 | in any run an edit shares the author of its target, and a delete shares it or was submitted by an owner |
| DeliveryTheorems.VisibleStable | server/src/server.js:6075-6095 | what a device can see up to an assigned sequence never changes again |
| DeliveryTheorems.PageIsInterval | server/src/server.js:6075-6119 | a page is exactly what is visible between the requested sequence and the deliveredSequence of its answer, for every limit |
| DeliveryTheorems.ReadsEverythingOnce | server/src/server.js:6033-6122 | a device that starts at 0 and keeps fetching with the last deliveredSequence receives exactly its visible entries, once each and in order, for any limits and any operations in between |
| DeliveryTheorems.FetchProgress | server/src/server.js:6075-6119 | a fetch moves on while anything visible is left, so an empty page means the device is caught up |
| DeliveryService.Service.Initialize | server/src/server.js:5500-5601 | creates a channel state once, for an owner with an enrolled device; the new tables are those of the specification |
| DeliveryService.Service.CompareOperation | server/src/server.js:5742-5793 | comparing the two sorted id lists decides equality of the live attachments, and with it whether an operation is the same |
| DeliveryService.Service.LinkAttachments | server/src/server.js:5901-5931 | the number of changed rows is the number asked for exactly when every attachment could be linked |
| DeliveryService.Service.Insert | server/src/server.js:5859-5942 | the inserts of the transaction take effect as a whole, or a violated constraint or a short link count leaves every table as it was |
| DeliveryService.Service.Submit | server/src/server.js:5603-5956 | answers with the decision of the specification and changes the tables exactly when the submission is accepted afresh |
| DeliveryService.Service.SelectPage | server/src/server.js:6075-6091 | the ordered, limited SELECT of a fetch yields the page of the specification |
| DeliveryService.Service.Fetch | server/src/server.js:6033-6122 | returns the page and moves the delivery cursor as specified |
| DeliveryService.Service.Acknowledge | server/src/server.js:6124-6194 | moves the acknowledgement cursor, and refuses to run ahead of delivery or back |
| DeliveryExact.DecidedByRequirements | server/src/server.js:5687-5942 | a submission with a new operation id gets the error of the first of nine requirements on the columns of the tables and the fields of the request that it does not meet, and is stored afresh when it meets all |
| DeliveryExact.StoredExactly | server/src/server.js:5687-5942 | stored afresh if and only if the operation id is new and every requirement is met: the target in this channel and a message, or an attachment unless it is edited; edits by its user, deletes by its user or an owner; attachments of this channel, user and device, unlinked, undeleted, unexpired |
| DeliveryExact.OwnersDelete | server/src/server.js:5841-5858 | an owner's delete of anybody's message or attachment in the channel is accepted |
| DeliveryExact.ReplayedExactly | server/src/server.js:5742-5793 | a used operation id is answered with its row if and only if row, event and undeleted attachments say column by column what the request says, else with a conflict; nothing changes |
| DeliveryExact.WrittenExactly | server/src/server.js:5859-5942 | an accepted submission writes one message row, its event row, its attachment links and the counters with these columns, and nothing else |
| DeliveryExact.SeenExactly | server/src/server.js:6075-6091 | an entry of the log is visible to a device if and only if it is no Welcome or names the device as its recipient |
| DeliveryExact.PageExactly | server/src/server.js:6075-6119 | a page holds exactly the log entries for the device between the requested sequence and its own end, at most 1 to 200 of them, and is shorter only when nothing is left |
| DeliveryExact.FetchedExactly | server/src/server.js:6075-6119 | what is visible to a device is exactly what some fetch of it returns; the joins of the agreement model read what is visible |
| DeliveryExact.WelcomesReachTheirDevice | server/src/server.js:6085-6088 | a device that keeps fetching from 0 receives, as far as it has come, every Welcome sent to it and none sent to another |
| DeliveryExact.FetchMovesCursor | server/src/server.js:6092-6111 | a fetch that brings something moves the delivery cursor to the end of the page or leaves it where it is further, and touches nothing else |
| DeliveryExact.AcknowledgedExactly | server/src/server.js:6145-6182 | an acknowledgement is taken if and only if it goes neither back nor beyond delivery and the accepted commits, and then stored as it is |
| DeliveryExact.DeliveredCanBeAcknowledged | server/src/server.js:6092-6182 | what a fetch has just delivered can be acknowledged |
| DeliveryExact.InitializedExactly | server/src/server.js:5500-5601 | a channel starts once, at epoch 0 and sequence 1, for an owner with an enrolled device; the refusals in order |
| Agreement.SystemStep | client/native/yappa_mls/src/lib.rs:385-571 | every event - a request served, a device preparing, accepting, rejecting, processing or joining, a message delayed, repeated, reordered or lost - keeps the protocol invariant |
| Agreement.StartInv | server/src/server.js:5500-5601 | the invariant holds before the first event |
| Agreement.AcceptedAnswer | server/src/server.js:5794-5942 | a commit that is answered as accepted, afresh or as a repetition, is from then on the commit that the log has for its epoch |
| Agreement.RefusedAnswer | server/src/server.js:5794-5942 | a commit that is answered as rejected is not in the log, and its epoch is taken or its operation id used, so that it can no longer get there |
| Agreement.MergedPrefix | client/native/yappa_mls/src/lib.rs:488-508 | what a device has merged is a beginning of the accepted commits of the channel |
| Agreement.FetchesExactly | server/src/server.js:6075-6091 | what a joining device takes its Welcome from is what it fetches: a Welcome is there if and only if it was sent to this device |
| Agreement.AnswerDecides | client/native/yappa_mls/src/lib.rs:488-508 | a device that has learned its answer can do exactly one thing with its pending commit: merge it when accepted, drop it when rejected |
| Agreement.AgreementWithoutForks | client/native/yappa_mls/src/lib.rs:423-571 | after any interleaving the commits a device has merged are a contiguous run of the accepted ones from its join epoch, devices in the same epoch share one history, and otherwise one history begins the other |
| Progress.CatchUpExactly | client/native/yappa_mls/src/lib.rs:488-571 | a device can reach the whole accepted history by processing log entries if and only if no accepted commit of its own is ahead of it, the next one aside when it is the pending one; Process stands for processing the commit of another device and for accepting the own pending one |
| Progress.LiveStep | client/native/yappa_mls/src/lib.rs:385-571 | no event of anybody puts such an obstacle in the way of a device: it remembers what it has sent, its pending commit is the next own one in the log, and a rejection was for a refused request |
| Progress.StartLive | server/src/server.js:5500-5601 | before the first event nothing is in the way of any device |
| Progress.CatchUp | client/native/yappa_mls/src/lib.rs:488-571 | no device that keeps its state gets stuck: from any state of any run it reaches the whole accepted history by processing one log entry for each commit it misses, and nothing else changes |
| AgreementRestarts.ClusterStep | client/native/yappa_mls/src/lib.rs:187-343 | every event, saving of a state and restart from any saved state keeps the protocol invariant, and every saved state stays a beginning of the accepted history |
| AgreementRestarts.AgreementAcrossRestarts | client/native/yappa_mls/src/lib.rs:187-571 | after any interleaving of events, savings and restarts two devices still hold one history as far as the shorter one goes, and it is the one of the server |
| AgreementRestarts.OthersRestartsDoNoHarm | client/native/yappa_mls/src/lib.rs:488-571 | a device that is never restored can always catch up, whatever states the others go back to |
| AgreementRestarts.BlockedForGood | client/native/yappa_mls/src/lib.rs:488-571 | a device that went back behind an accepted commit of its own never holds the accepted history again and cannot reach it, whatever happens, until it is restored again; its new commits are taken to have fresh randomness |
| RollbackExample.FirstIsLeftBehind | client/native/yappa_mls/src/lib.rs:551-571 | from the empty server a run in which a device is restored from a file saved before its accepted commit and cannot catch up |
| JoinExample.TwoMembersAreReached | client/native/yappa_mls/src/lib.rs:1013-1044 | from the empty server a run reaches a state in which two devices are in epoch 1 of one history |
| MlsCore.MlsDevice.CreateGroup | client/native/yappa_mls/src/lib.rs:361-383 | a new group at epoch 0, refused when it exists |
| MlsCore.MlsDevice.PrepareAdd | client/native/yappa_mls/src/lib.rs:385-421 | refused for a bad size, a missing group, a pending commit, an invalid key package or one that cannot be added, in this order; otherwise one commit is pending, and its Welcome leads to the very history and epoch the committer has after accepting |
| MlsCore.MlsDevice.PrepareSelfUpdate | client/native/yappa_mls/src/lib.rs:425-449 | one pending commit made for the present history; refused while another is pending |
| MlsCore.MlsDevice.PrepareRemove | client/native/yappa_mls/src/lib.rs:453-486 | succeeds only for the credential of exactly one member; missing state for none, a conflict for several |
| MlsCore.MlsDevice.AcceptPendingCommit | client/native/yappa_mls/src/lib.rs:488-497 | merges the pending commit |
| MlsCore.MlsDevice.RejectPendingCommit | client/native/yappa_mls/src/lib.rs:499-508 | drops the pending commit and keeps the epoch |
| MlsCore.MlsDevice.ProcessCommit | client/native/yappa_mls/src/lib.rs:551-571 | merges another member's commit exactly when it was made for this history, and discards the own pending one; every other wire is refused with its error, and an application message uses up its secret first |
| MlsCore.MlsDevice.JoinFromWelcome | client/native/yappa_mls/src/lib.rs:510-549 | joins with the history of the Welcome; refused with its error otherwise, and a group other than the expected one is deleted again |
| MlsCore.MlsDevice.EncryptApplication | client/native/yappa_mls/src/lib.rs:605-620 | seals a message; refused while a commit is pending |
| MlsCore.MlsDevice.DecryptApplication | client/native/yappa_mls/src/lib.rs:622-660 | opens a ciphertext of the present epoch once, using up its secret even when the content is refused |
| MlsCore.MlsDevice.StageApplication | client/native/yappa_mls/src/lib.rs:664-683 | result and state of staging a received message |
| MlsCore.MlsDevice.ClearStagedApplication | client/native/yappa_mls/src/lib.rs:685-693 | removes exactly the receipt of this message |
| MlsCore.MlsDevice.StageOutgoingApplication | client/native/yappa_mls/src/lib.rs:695-724 | result and state of staging a message to send |
| MlsCore.MlsDevice.ClearOutgoingApplication | client/native/yappa_mls/src/lib.rs:736-743 | removes exactly the message of this operation id |
| MlsCore.MlsDevice.PendingOutgoingApplications | client/native/yappa_mls/src/lib.rs:726-734 | lists every staged message once, in the order of the operation ids |
| MlsCore.MlsDevice.ExportEncryptedState | client/native/yappa_mls/src/lib.rs:187-285 | the file of the device's present state, or the refusal of the export |
| MlsCore.MlsDevice.ImportEncryptedState | client/native/yappa_mls/src/lib.rs:287-343 | a new device in the state the file restores, or the refusal of the import |
| MlsExact.AddExactly | client/native/yappa_mls/src/lib.rs:385-421 | an addition is prepared when sizes, group, pending commit, key package and OpenMLS allow it, in this order |
| MlsExact.RemoveExactly | client/native/yappa_mls/src/lib.rs:453-486 | a removal is prepared if and only if exactly one member has the credential and may be removed; the errors in order |
| MlsExact.CommitExactly | client/native/yappa_mls/src/lib.rs:551-571 | a wire is merged if and only if it is another member's commit for exactly the merged commits of the group; the errors in order |
| MlsExact.JoinExactly | client/native/yappa_mls/src/lib.rs:510-549 | a device joins if and only if the Welcome opens and leads into the expected group, which it is not in; the errors in order |
| StagingTheorems.ReceiptKeyInjective | client/native/yappa_mls/src/lib.rs:800-809 | two (group, sequence) pairs with the same receipt key are the same pair |
| StagingTheorems.RunAccounted | client/native/yappa_mls/src/lib.rs:664-683 | after any operations a used-up ciphertext has its receipt, with its own content, or the receipt was cleared after it was made - handshake contents and plaintexts over the limit aside |
| StagingTheorems.OversizedIsLost | client/native/yappa_mls/src/lib.rs:644-650 | a fresh message leaves a receipt exactly when its plaintext is within the limit; otherwise its secret is gone and staging it again fails |
| StagingExamples.OversizedIsGone | client/native/yappa_mls/src/lib.rs:644-650 | a run of a new device in which a message one byte over the limit uses up its secret, leaves no receipt and cannot be staged again |
| StagingTheorems.StagedIsHeld | client/native/yappa_mls/src/lib.rs:680-682 | a successful staging is held as the receipt it returned |
| StagingTheorems.SentIsHeld | client/native/yappa_mls/src/lib.rs:709-723 | a successful staging of an outgoing message is held under its operation id |
| StagingExact.DecryptedExactly | client/native/yappa_mls/src/lib.rs:622-660 | a ciphertext is decrypted if and only if every requirement on sizes, group, epoch, secret and content is met, with the errors in order; the result has the plaintext, credential and signature key it opens to and its epoch modulo 2^64 |
| StagingExact.StagedExactly | client/native/yappa_mls/src/lib.rs:664-683 | a message without one is staged if and only if the requirements of staging and of decryption are met, in order, and its receipt has the plaintext, credential, signature key and epoch of its content |
| StagingExact.StagedUses | client/native/yappa_mls/src/lib.rs:664-683 | staging uses up a secret exactly when there was no receipt and the ciphertext could be opened |
| StagingExact.ClearedExactly | client/native/yappa_mls/src/lib.rs:685-693 | clearing removes the receipt of this group and sequence and no other |
| StagingExact.SentExactly | client/native/yappa_mls/src/lib.rs:695-724 | a message with a new operation id is sealed if and only if every requirement is met, and is then kept under it with its group, epoch, plaintext and sealed bytes |
| StagingExact.ResentExactly | client/native/yappa_mls/src/lib.rs:703-708 | a repeated operation id is answered with what is kept under it, or a conflict when group or plaintext differ |
| StagingExact.OperationIdMeans | client/native/yappa_mls/src/lib.rs:782-793 | an operation id is "mlsop_" and 22 letters, digits, underscores or hyphens |
| RestartTheorems.AlwaysSound | client/native/yappa_mls/src/lib.rs:664-724 | over any life with exports and restarts, whatever messages and senders there are, both maps keep at most 1000 entries and every checked field within its limit, so the counts never make an export fail |
| RestartTheorems.RestoreUndoesSave | client/native/yappa_mls/src/lib.rs:187-343 | importing what was exported gives exactly the exported device or fails, and succeeds if and only if the state is well-formed and within the size limit |
| RestartTheorems.RestoredExactly | client/native/yappa_mls/src/lib.rs:187-343 | in any life an exported file is restorable if and only if every receipt has a sender credential of 1 to 1024 bytes and a key of 32, every sealed message 1 to 2^20 bytes, no storage key is empty and the plaintext is within the limit |
| RestartTheorems.BadSenderBlocksImport | client/native/yappa_mls/src/lib.rs:918-926 | one receipt of a sender with another credential or key makes every import of its device fail |
| StagingExamples.NamelessSenderBlocksRestarts | client/native/yappa_mls/src/lib.rs:633-657 | a run of a new device in which a message of a member with an empty credential is staged; the device reached is exported under the layout of VaultExample and the import of that file fails, and no layout gives a file of it that can be imported |
| RestartTheorems.LifeIsItsLineage | client/native/yappa_mls/src/lib.rs:187-343 | whatever is exported, restored and abandoned, the device and every file are what exactly the operations of their lineage - positions in the actions of this life - make in order |
| RestartTheorems.NoConsumptionWithoutReceipt | client/native/yappa_mls/src/lib.rs:662-683 | in every life, for the device and for whatever any file restores: a used-up ciphertext was staged by an action of this life, and its receipt with its own content is held or was cleared by a later action of the same lineage - handshake contents and plaintexts over the limit aside |
| RestartTheorems.DecryptedOnce | client/native/yappa_mls/src/lib.rs:664-683 | in every life, after a ciphertext was decrypted a later attempt decrypts it again if and only if a restart in between went back to a file whose device had not used up its secret, and nothing between that restart and the attempt decrypted it or went back to a file whose device had |
| StagingExamples.DecryptedTwice | client/native/yappa_mls/src/lib.rs:664-683 | a life of a new device that decrypts the same ciphertext before and after a restart from an older file |
| VaultExample.TheVaultIsFaithful | client/native/yappa_mls/src/lib.rs:193-260 | a storage layout from which the groups, used-up secrets and signer of every device are read back: what the restart theorems assume of an installation can be met |
| RestartTheorems.ReceiptAlive | client/native/yappa_mls/src/lib.rs:664-693 | an uncleared receipt stays, in the device and in whatever its new files restore, over any actions and restarts from files that hold it |
| RestartTheorems.ReceiptReturned | client/native/yappa_mls/src/lib.rs:673-676 | until it is cleared, staging its message again returns the receipt unchanged and decrypts nothing |
| RestartTheorems.OutgoingAlive | client/native/yappa_mls/src/lib.rs:695-743 | an uncleared outgoing message stays, over any actions and restarts from files that hold it |
| RestartTheorems.OneCiphertext | client/native/yappa_mls/src/lib.rs:703-708 | until it is cleared, an operation id has one ciphertext: the same request returns it, another is a conflict, and nothing is encrypted |
| Bytes.ListsUnique | client/native/yappa_mls/src/lib.rs:204-205 | a set of keys has only one strictly sorted listing, so the sorted output does not depend on the map's order |
| Bytes.SortKeys | client/native/yappa_mls/src/lib.rs:204-205 | sorting the keys of a map yields that listing |
| StateTheorems.SectionReadsBack | client/native/yappa_mls/src/lib.rs:891-898 | the chunks of a map, wherever they stand, are read back as that map |
| StateTheorems.RoundTrip | client/native/yappa_mls/src/lib.rs:193-260 | decoding what was written for a well-formed state gives the state back, in each of the three versions; the older ones come back with their missing maps empty |
| StateRefusals.StateLocal | client/native/yappa_mls/src/lib.rs:823-991 | a successful read does not depend on what follows |
| StateRefusals.ExtensionRefused | client/native/yappa_mls/src/lib.rs:987-989 | every extension of an accepted plaintext is refused |
| StateRefusals.PrefixRefused | client/native/yappa_mls/src/lib.rs:823-853 | every proper prefix of an accepted plaintext is refused |
| StateRefusals.SectionChecked | client/native/yappa_mls/src/lib.rs:891-898 | a section of n records yields n keys and n checked records: no repeated key is accepted |
| StateRefusals.AcceptedIsWellFormed | client/native/yappa_mls/src/lib.rs:859-991 | whatever is accepted is a well-formed state, with the maps its version lacks empty |
| StateRefusals.MigrationKeepsState | client/native/yappa_mls/src/lib.rs:870-880 | an accepted plaintext of any version can be written in version 3 and is then read as the same state |
| StateRefusals.ReadRecords | client/native/yappa_mls/src/lib.rs:891-898 | the reading loop computes the section of the specification |
| StateRefusals.DecodeState | client/native/yappa_mls/src/lib.rs:859-991 | the decoder computes the specification, error for error |
| StateExport.WriteRecords | client/native/yappa_mls/src/lib.rs:212-219 | a writing loop succeeds exactly when every field fits its prefix and the output behind the last record is within the limit, and then appends the sorted chunks |
| StateExact.SectionReadsOnly | client/native/yappa_mls/src/lib.rs:891-926 | the chunks of any map, wherever they stand, are read back as that map or refused |
| StateExact.DecodeExact | client/native/yappa_mls/src/lib.rs:859-991 | the plaintext of any state is read back as that state if and only if the state is well-formed, and refused otherwise |
| StateExport.Export | client/native/yappa_mls/src/lib.rs:187-285 | an export succeeds exactly when the context, the counts, the field sizes and the size behind the last record of every non-empty section allow it, and then seals the version 3 encoding |
| StateExport.Import | client/native/yappa_mls/src/lib.rs:287-343 | gate on length and magic, authentic decryption, decoding and signer, in this order |
| StateExport.ImportIsAuthentic | client/native/yappa_mls/src/lib.rs:287-343 | an import yields a state only from a file sealed under its key and context, and then a well-formed one |
| StateExport.ImportUndoesExport | client/native/yappa_mls/src/lib.rs:293-343 | any exported file is imported if and only if its state is well-formed, within MAX_STATE_BYTES and has its signer, and then as that very state |
| StateExport.ExportExcess | client/native/yappa_mls/src/lib.rs:211-260 | an export is over the limit only by the counts of empty sections, at most 8 bytes, and never with outgoing messages |
| StateExport.ExportThatCannotBeImported | client/native/yappa_mls/src/lib.rs:211-260 | a concrete well-formed state that is exported and, 8 bytes too large, refused by every import |
| StateExport.NamelessCannotBeImported | client/native/yappa_mls/src/lib.rs:918-926 | a small state with one receipt of a sender without a credential that is exported and refused by every import |
| StateLayout.VersionLayout | client/native/yappa_mls/src/lib.rs:193-260 | the plaintexts of the three versions, section by section behind magic, device id and public key |
| StateLayout.PendingLayout | client/native/yappa_mls/src/lib.rs:220-240 | a receipt: key, epoch in eight bytes, credential, signature key, plaintext |
| StateLayout.OutgoingLayout | client/native/yappa_mls/src/lib.rs:241-260 | an outgoing message: group, operation id, epoch in eight bytes, plaintext, ciphertext |
| StateLayout.LimitsMean | client/native/yappa_mls/src/lib.rs:859-991 | what an import accepts of a state, limit by limit in numbers |
| StateLayout.FieldMeans | client/native/yappa_mls/src/lib.rs:823-853 | a field is read exactly where its four length bytes and as many bytes stand, within its maximum |
| StateLayout.OutgoingErrors | client/native/yappa_mls/src/lib.rs:940-985 | an outgoing record is an invalid input when its group or operation id is readable and not acceptable, and an invalid message for everything else |
| StateLayout.DecodeErrors | client/native/yappa_mls/src/lib.rs:859-991 | a refused plaintext is an invalid message, except for an empty device id and for bad routing of an outgoing message |
| StateExportExact.ExportedExactly | client/native/yappa_mls/src/lib.rs:187-285 | an export succeeds if and only if the context has 1 to 1024 bytes, the counts are at most 100000, 1000 and 1000, every length fits four bytes, and the plaintext is within 64 MiB behind the last record of every section that has one |
| StateExportExact.ImportedExactly | client/native/yappa_mls/src/lib.rs:287-343 | an import needs context, length, magic, key and context of the sealing, a plaintext that decodes and its signer, with the error of the first that fails, and gives the state the plaintext decodes to |
| MediaTheorems.RunKeeps | server/src/server.js:1233-1270 | requests keep that a room state exists exactly when the channel has active devices, lists exactly those in increasing order and is led by the first |
| MediaTheorems.FromTheStart | server/src/server.js:1233-1270 | so it is after any requests to a server that has just started |
| MediaTheorems.LeaderIsLeast | server/src/server.js:1243-1251 | the leader is active and is the least active device |
| MediaTheorems.DeletionLeavesStaleRoom | server/src/server.js:7325-7335 | deleting a channel keeps room states and presence in agreement if and only if nobody is active in it |
| MediaTheorems.StaleRoomStays | server/src/server.js:7325-7335 | the room state of a channel nobody is in and nobody can join is never changed or removed |
| MediaTheorems.DeletionIsForever | server/src/server.js:7325-7335 | from the start of the server: a deletion leaves the room state behind if and only if somebody was active, and no later requests change or remove it |
| MediaTheorems.RoomOfDeletedChannel | server/src/server.js:7325-7335 | a concrete channel that is joined, deleted and keeps its room state whatever happens then |
| MediaTheorems.OccupancyEvolves | server/src/server.js:1245-1270 | while a room stays occupied its epoch never decreases, within an epoch the leader is constant and devices only join, and membershipSequence rises by exactly the number of changes of the device set |
| MediaTheorems.EpochsRestart | server/src/server.js:1256-1269 | a room that begins, or begins again, has epoch 1, membership 1 and no used sequences |
| MediaTheorems.RelayedInOrder | server/src/server.js:7735-7793 | during one occupancy the relayed envelopes strictly increase by (epoch, sequence), and those of one epoch come from one sender |
| MediaTheorems.RelayedBetweenMembers | server/src/server.js:7719-7776 | who relays is the leader of the present epoch, and sender and recipient are listed members; the recipient has a socket that speaks for it |
| MediaService.Service.ActiveMembers | server/src/server.js:1165-1231 | the allowed devices in a channel in increasing order, each with the least of its sockets |
| MediaService.Service.NextState | server/src/server.js:1243-1270 | the state that replaces the present one; the ledger is the same object exactly when the epoch does not rotate, otherwise a new one |
| MediaService.Service.Emit | server/src/server.js:1233-1285 | updates exactly this room as specified; no two rooms ever share a ledger |
| MediaService.Service.Join | server/src/server.js:7546-7635 | moves the socket, emits the room it leaves and then the room it enters |
| MediaService.Service.Leave | server/src/server.js:7637-7665 | clears the socket's channel and emits the room it leaves |
| MediaService.Service.Disconnect | server/src/server.js:7936-7944 | removes the socket and emits the room it leaves |
| MediaService.Service.CheckEnvelope | server/src/server.js:7719-7788 | the checks of the relay in order; the envelope goes to the socket that speaks for the recipient |
| MediaService.Service.Relay | server/src/server.js:7704-7795 | records the sequence in the room's ledger, and changes no other room |
| MediaService.Service.DeleteChannel | server/src/server.js:7325-7335 | clears presence and leaves the room state as it is |
| MediaExact.JoinedExactly | server/src/server.js:7546-7600 | joining puts the socket into the channel with the device it had, or is refused with the first failing requirement; no other socket moves |
| MediaExact.LeftExactly | server/src/server.js:7637-7665 | after leaving the socket is in no channel, after disconnecting it is gone; no other socket moves |
| MediaExact.DeletedExactly | server/src/server.js:7325-7335 | deleting a channel empties it of its sockets, and keeps every other presence and every room |
| MediaExact.StepRenews | server/src/server.js:1243-1270 | the epoch of a room is the next one, with an empty ledger, if and only if the leader is another one or a device has left; the membership counts exactly the changes |
| MediaExact.LedgerAlways | server/src/server.js:7777-7791 | after any requests the ledger of a room is the highest sequence relayed in its present epoch |
| MediaExact.RelayedExactly | server/src/server.js:7719-7795 | after any requests an envelope is relayed if and only if its socket is present as its sender in its channel, its epoch is the room's, the room's leader signed it and is one of its devices, the recipient is one too, and its sequence is at least 1 and above all relayed in this epoch; else it gets the first failing check's error |
| MediaExact.FirstIsRelayed | server/src/server.js:7777-7795 | the first envelope of an epoch, with sequence 1, is relayed |
| HistoryTheorems.RunKeepsInv | server/src/server.js:4534-4564 | any run keeps the invariant |
| HistoryTheorems.FromTheStart | server/src/server.js:4534-4564 | after any requests to a new server the counters of an active transfer are the number and byte sum of its chunks, the bytes are within total_bytes, ended transfers hold no chunks, and a destination has one active transfer per channel |
| HistoryTheorems.Pigeonhole | server/src/server.js:4598-4606 | n different indices below n are all of them |
| HistoryTheorems.ReadyIsComplete | server/src/server.js:4598-4622 | a ready transfer holds exactly the chunks 0 to chunk_count - 1, and assembled they have exactly total_bytes bytes |
| HistoryTheorems.ReadyIsServed | server/src/server.js:4677-4721 | of a ready transfer the destination is served the chunk stored under every index below chunk_count, and not found beyond |
| HistoryTheorems.FinalizeExact | server/src/server.js:4598-4613 | finalizing an uploading transfer succeeds if and only if every index was uploaded and the bytes add up |
| HistoryTheorems.LifeCycle | server/src/db.js:138-184 | over any run terms never change, consumed, canceled and expired transfers never change at all, the chunks of a ready transfer never change, and an uploaded chunk stays what it is while the transfer is active |
| HistoryTheorems.TerminalIsEmpty | server/src/server.js:4749-4805 | a consumed, canceled or expired transfer holds no chunks |
| HistoryTheorems.ConsumedOnce | server/src/server.js:4723-4774 | no run consumes a transfer twice |
| HistoryTheorems.NothingDueIsActive | server/src/server.js:4097-4122 | what is active after the expiry at the start of a request expires later than now |
| HistoryTheorems.ChunkUploadIsIdempotent | server/src/server.js:4507-4533 | uploading a stored chunk again changes nothing; another body in its place is a conflict |
| HistoryStore.Store.Compact | server/src/server.js:4097-4122 | expires exactly what is due and deletes exactly its chunks |
| HistoryStore.Store.CancelActive | server/src/server.js:4124-4158 | cancels exactly the active transfers of a device or a user |
| HistoryStore.Store.Create | server/src/server.js:4232-4463 | reply and new tables of a creation |
| HistoryStore.Store.PutChunk | server/src/server.js:4465-4574 | reply and new tables of an upload |
| HistoryStore.Store.Totals | server/src/server.js:4598-4602 | counting row by row gives COUNT and SUM over the stored chunks |
| HistoryStore.Store.Finalize | server/src/server.js:4576-4640 | reply and new tables of a finalization |
| HistoryStore.Store.GetChunk | server/src/server.js:4677-4721 | serves a chunk of a ready transfer to its destination |
| HistoryStore.Store.Consume | server/src/server.js:4723-4774 | reply and new tables of a consumption |
| HistoryStore.Store.Cancel | server/src/server.js:4776-4808 | reply and new tables of a cancellation |
| HistoryExact.CompactedExactly | server/src/server.js:4097-4122 | a request first expires the transfers that are uploading or ready and due, deletes their chunks, and changes no other column |
| HistoryExact.RequestExpires | server/src/server.js:4097-4122 | no request of a client finds a transfer under way that is due at the time of the request; it is expired and its chunks are gone |
| HistoryExact.CanceledForDevice | server/src/server.js:4124-4158 | revoking a device cancels exactly the transfers under way from or to it |
| HistoryExact.CanceledForUser | server/src/server.js:4124-4158 | removing a user cancels exactly the transfers of the user that are under way |
| HistoryExact.CreatedExactly | server/src/server.js:4232-4463 | a transfer is created if and only if its terms are within their limits, the destination is available, the id is new and none is under way to the same device in the same channel; it may be uploaded for seven days; the errors in order |
| HistoryExact.PutExactly | server/src/server.js:4465-4574 | a chunk is stored under its index and counted if and only if the caller is the source, the transfer is uploading, the index and the size are within bounds, the digest fits, the index is free and total_bytes is not exceeded; the errors in order |
| HistoryExact.FinalizedExactly | server/src/server.js:4576-4640 | a transfer becomes ready, for thirty days, if and only if the source asks, it is uploading, and the chunks 0 to chunk_count - 1 are there and concatenated have total_bytes bytes; the replies in order |
| HistoryExact.ServedExactly | server/src/server.js:4677-4721 | a chunk is served if and only if its destination asks for it, the transfer is ready and the index is below chunk_count, and it is the chunk stored under this index; everybody else gets not found |
| HistoryExact.ConsumedExactly | server/src/server.js:4723-4774 | the destination consumes a ready transfer; the replies in order, and only the status and the chunks change |
| HistoryExact.CanceledExactly | server/src/server.js:4776-4808 | the source cancels an uploading transfer; the replies in order, and only the status and the chunks change |
| HistoryExact.UploadedOnce | server/src/server.js:4507-4533 | no run accepts two uploads of one index of a transfer |
| HistoryExact.ServedWasUploaded | server/src/server.js:4677-4721 | after any requests what is served under an index is the body of the one accepted upload of that index, which came from the transfer's source |
| HistoryExact.DownloadIsComplete | server/src/server.js:4677-4721 | the bodies served for 0 to chunk_count - 1, one after the other, are the assembled chunks and have exactly total_bytes bytes |
| KeyPackageTheorems.RunKeepsInv | server/src/db.js:255-278 | any run keeps the invariant |
| KeyPackageTheorems.FromTheStart | server/src/db.js:255-278 | after any requests to a new server the bytes of a package are there exactly until it is claimed or its expiry is noticed, hashes stay unique, and every package names a credential of its device |
| KeyPackageTheorems.ClaimTakesEarliest | server/src/server.js:5144-5161 | a claim succeeds exactly when the target has an unclaimed, unexpired package, and hands out the whole bytes of the one that expires first, strictly before its expiry |
| KeyPackageTheorems.SingleUse | server/src/server.js:5144-5161 | no two claims of any run are handed the same package or the same bytes |
| KeyPackageTheorems.HandedWasRegistered | server/src/server.js:4965-5026 | whatever a claim hands out was registered earlier by the device it is claimed from |
| KeyPackageTheorems.WithinLimits | server/src/server.js:4937-4999 | under a clock that does not go back a device never has more than 100 packages available, 10000 in all and 8 credentials |
| KeyPackageStore.Store.Compact | server/src/server.js:1923-1931 | clears exactly the bytes of expired packages |
| KeyPackageStore.Store.Validate | server/src/server.js:4879-4936 | the first problem of the submitted packages, in order |
| KeyPackageStore.Store.InsertItems | server/src/server.js:4974-5026 | inserts all packages and their new credentials, or none when a constraint is violated |
| KeyPackageStore.Store.Post | server/src/server.js:4840-5052 | reply and new tables of a registration |
| KeyPackageStore.Store.Earliest | server/src/server.js:5142-5152 | the ordered SELECT with LIMIT 1 finds the choice if there is any |
| KeyPackageStore.Store.Claim | server/src/server.js:5100-5187 | reply and new tables of a claim |
| KeyPackageExact.CompactedExactly | server/src/server.js:1923-1931 | a package that is due loses its bytes and counts as claimed at its expiry; no other column changes |
| KeyPackageExact.PostedExactly | server/src/server.js:4840-5052 | packages are registered if and only if there are one or two, the YUID is verified, each is of suite 1, lives 5 minutes to 30 days, has 64 to 65536 bytes and is bound, 100 available, 10000 in all and 8 credentials are not exceeded, and every id and every hash is new; the errors in order |
| KeyPackageExact.PostWrites | server/src/server.js:4974-5026 | each submitted package has its row, unclaimed and with its own expiry, and its credential; rows and credentials that were there stay |
| KeyPackageExact.ClaimedExactly | server/src/server.js:5142-5187 | a claim hands out the unclaimed, unexpired package with the least (expires_at, id), whole and as registered, and marks it with time and claimant; there is none exactly when nothing is in stock |
| PaginationTheorems.BackwardPage | server/src/server.js:6462-6489 | a backward page is an ascending end of the candidates; whatever it leaves out is below the next cursor |
| PaginationTheorems.ForwardPage | server/src/server.js:6476-6486 | a forward page is an ascending beginning of the candidates; whatever it leaves out is above everything on it |
| PaginationTheorems.WalkBackSound | server/src/server.js:6508-6519 | following nextCursor yields, in order and once each, messages that were in the channel when the walk began, at least one per page |
| PaginationTheorems.WalkBackComplete | server/src/server.js:6508-6519 | a finished walk back has yielded every message below its start that survives it, whatever is appended or deleted meanwhile and whatever the limits |
| PaginationTheorems.WalkBackEnds | server/src/server.js:6508-6519 | a walk back takes at most one page more than the channel had messages |
| PaginationTheorems.WalkForwardSound | server/src/server.js:6520-6530 | following forwardCursor yields later messages, in order and once each |
| PaginationTheorems.ForwardCatchesUp | server/src/server.js:6520-6530 | when a page has nothing behind it, the walk forward has yielded every message above its start that is there |
| PaginationTheorems.ChangesMakeVisits | server/src/db.js:197-206 | any appends and deletions between requests never bring an id back |
| PaginationTheorems.WholeHistoryIsSeen | server/src/server.js:6462-6540 | the newest page, walked back to the end and then forward until caught up, shows every message that is still there, whatever is appended and deleted before each request |
| CursorTokens.CursorIsBound | server/src/server.js:2316-2384 | the text of a cursor decodes to that cursor for the same server, channel and user, up to 1024 characters, and to nothing for any other |
| CursorTokens.AcceptedMeans | server/src/server.js:2339-2384 | every text that decodes is a payload with its own signature, and the payload has the one canonical form of this server, channel, user and message |
| CursorTokens.TamperedIsRefused | server/src/server.js:2348-2359 | another payload with the signature of a cursor is refused by everyone, unless the two payloads have the same HMAC |
| Pagination.History.Append | server/src/db.js:197-206 | gives an id that was never used |
| Pagination.History.Select | server/src/server.js:6463-6481 | the ordered, limited SELECT in both directions |
| Pagination.History.List | server/src/server.js:6393-6542 | fetching one row more, popping and reversing gives the page of the specification; a limit outside 1..100 gives none |
| PaginationExact.PageExactly | server/src/server.js:6462-6530 | messages, hasMore and the three cursors of the page without a cursor, before a message and after one, from the rows of the channel |
| PaginationExact.DecodedExactly | server/src/server.js:2339-2384 | a well-formed text decodes to a cursor if and only if its second part is the HMAC of the first and the first names this server, channel, user, message and direction |
| PaginationExact.OnlyWellFormed | server/src/server.js:2339-2347 | only texts of 32 to 1024 characters, two base64url parts around a dot, decode at all |
| CodecTheorems.ReadsBack | client/packages/flutter_webrtc_yappa/linux/flutter/standard_codec.cc:98-288 | in any input, reading where a value was written gives the value and ends where the writer ended, if its empty multi-byte lists are in step |
| CodecTheorems.SizeRead | client/packages/flutter_webrtc_yappa/linux/flutter/standard_codec.cc:229-257 | sizes below 2^32 are read back in their three forms |
| CodecExact.NoHeaderInside | client/packages/flutter_webrtc_yappa/linux/flutter/standard_codec.cc:259-288 | a reader that is ahead inside the padded header of a typed list does not see the same header again |
| CodecExact.ValueAhead | client/packages/flutter_webrtc_yappa/linux/flutter/standard_codec.cc:168-227 | a reader that is ahead of the writer and still reads the same value stays ahead to its end |
| CodecExact.ReadIsSized | client/packages/flutter_webrtc_yappa/linux/flutter/standard_codec.cc:168-257 | whatever the bytes are, no size of 2^32 or more, no custom value and no repeated key is ever read |
| CodecExact.RoundTripExact | client/packages/flutter_webrtc_yappa/linux/flutter/standard_codec.cc:98-288 | any value written at a position is read back in every context, with its end, if and only if its numbers have their width and its typed lists whole elements, its sizes are below 2^32, the keys of each map are distinct, nothing in it is of a custom type, and every empty list of multi-byte elements in it ends its size at an aligned position |
| CodecExact.EmptyInt32ListIsOutOfStep | client/packages/flutter_webrtc_yappa/linux/flutter/standard_codec.cc:262-288 | an empty Int32List at the start of a message is two bytes long and moves the reader to position 4 |
| CodecStreams.WriteVector | client/packages/flutter_webrtc_yappa/linux/flutter/standard_codec.cc:274-288 | a typed list: size, padding unless empty, raw elements |
| CodecStreams.WriteValue | client/packages/flutter_webrtc_yappa/linux/flutter/standard_codec.cc:98-166 | appends the encoding of the value at the stream's position; sizes are truncated to 32 bits and a custom value is written as null |
| CodecStreams.Read | client/packages/flutter_webrtc_yappa/linux/flutter/standard_codec.cc:92-96 | computes the reader's value and position for any bytes, also past the end |
| CodecStreams.ReadOfType | client/packages/flutter_webrtc_yappa/linux/flutter/standard_codec.cc:168-227 | dispatch on the type byte, with the old large integers read as text and unknown types as null |
| CodecStreams.Items | client/packages/flutter_webrtc_yappa/linux/flutter/standard_codec.cc:201-209 | the list loop |
| CodecStreams.Pairs | client/packages/flutter_webrtc_yappa/linux/flutter/standard_codec.cc:210-219 | the map loop; a key that is already there keeps its entry |
| CodecStreams.Writer.WriteAlignment | client/packages/flutter_webrtc_yappa/linux/flutter/byte_buffer_streams.h:86-93 | zeros up to the next multiple |
| CodecStreams.Reader.Byte | client/packages/flutter_webrtc_yappa/linux/flutter/byte_buffer_streams.h:29-35 | a byte, or 0 without moving past the end |
| CodecStreams.Reader.Raw | client/packages/flutter_webrtc_yappa/linux/flutter/byte_buffer_streams.h:38-45 | raw bytes, or a zeroed buffer without moving past the end |
| CodecStreams.Reader.Align | client/packages/flutter_webrtc_yappa/linux/flutter/byte_buffer_streams.h:48-53 | moves to the next multiple |
| CodecLayout.SizeLayout | client/packages/flutter_webrtc_yappa/linux/flutter/standard_codec.cc:229-257 | the three forms of a size and their byte order; larger sizes modulo 2^32 |
| CodecLayout.TypedLayout | client/packages/flutter_webrtc_yappa/linux/flutter/standard_codec.cc:274-288 | a typed list: type byte, number of elements, padding and elements unless it is empty |
| CodecLayout.ItemsLayout | client/packages/flutter_webrtc_yappa/linux/flutter/standard_codec.cc:140-166 | the items of a list, each written where the one before ends |
| CodecLayout.EntriesLayout | client/packages/flutter_webrtc_yappa/linux/flutter/standard_codec.cc:140-166 | the entries of a map, each written where the one before ends |
| CodecLayout.BadTypes | client/packages/flutter_webrtc_yappa/linux/flutter/standard_codec.cc:168-227 | past the end and for unknown types null is read; type 5 is read as a text |
| Utf8.EncodedIsAccepted | client/packages/flutter_webrtc_yappa/common/cpp/src/flutter_utf8_sanitize.cc:16-105 | the encoding of every scalar value is accepted as a whole, whatever follows |
| Utf8.AcceptedIsEncoded | client/packages/flutter_webrtc_yappa/common/cpp/src/flutter_utf8_sanitize.cc:16-105 | what is accepted is the encoding of a scalar value: no overlong form, no surrogate, nothing above U+10FFFF |
| Utf8.OutputIsWellFormed | client/packages/flutter_webrtc_yappa/common/cpp/src/flutter_utf8_sanitize.cc:8-108 | the output is well-formed UTF-8 (section 4 of RFC 3629) for every input |
| Utf8.IdentityExactlyOnWellFormed | client/packages/flutter_webrtc_yappa/common/cpp/src/flutter_utf8_sanitize.cc:8-108 | the output equals the input if and only if the input is well-formed |
| Utf8.Idempotent | client/packages/flutter_webrtc_yappa/common/cpp/src/flutter_utf8_sanitize.cc:8-108 | sanitizing twice is sanitizing once |
| Utf8.AtMostTripled | client/packages/flutter_webrtc_yappa/common/cpp/src/flutter_utf8_sanitize.cc:8-108 | the output is at most three times as long |
| Utf8.DamageIsLocal | client/packages/flutter_webrtc_yappa/common/cpp/src/flutter_utf8_sanitize.cc:8-108 | text that does not begin with a continuation byte is sanitized on its own, whatever stands before it |
| Utf8.KeptBehindDamage | client/packages/flutter_webrtc_yappa/common/cpp/src/flutter_utf8_sanitize.cc:8-108 | well-formed text is kept behind any damage |
| Utf8.Examine | client/packages/flutter_webrtc_yappa/common/cpp/src/flutter_utf8_sanitize.cc:16-105 | the branches decide how many bytes are copied |
| Utf8.SanitizeUtf8ForFlutter | client/packages/flutter_webrtc_yappa/common/cpp/src/flutter_utf8_sanitize.cc:8-108 | the loop computes the specification |
| Utf8.SanitizedExactly | client/packages/flutter_webrtc_yappa/common/cpp/src/flutter_utf8_sanitize.cc:8-108 | a character at the beginning is copied; a byte where none begins is replaced by U+FFFD, it alone |
| Utf8.ReferenceExamples | client/packages/flutter_webrtc_yappa/common/cpp/src/flutter_utf8_sanitize.cc:8-108 | the encoding the sanitizer is measured by gives characters of the examples of section 7 of RFC 3629, of one to four bytes |
| Jitter.NothingIsLostUnaccounted | client/packages/flutter_webrtc_yappa/windows/application_loopback_capturer.cc:505-524 | for every interleaving of packets and ticks the ring holds exactly the last captured frames in order, and captured = played + taken without an audio source + overwritten + trimmed + buffered |
| Jitter.HeardOnceInOrder | client/packages/flutter_webrtc_yappa/windows/application_loopback_capturer.cc:621-709 | for every interleaving, what the audio source is handed is sample by sample silence or a captured frame, and the captured frames come in the order of capture, none twice |
| Jitter.FeedIsNext | client/packages/flutter_webrtc_yappa/windows/application_loopback_capturer.cc:674-691 | a feed is a stretch of the captured frames that ends where the buffered ones begin, then silence |
| Jitter.LatencyIsCapped | client/packages/flutter_webrtc_yappa/windows/application_loopback_capturer.cc:646-656 | after a tick that is not skipped at most 200 ms are buffered, which is less than the ring holds |
| Jitter.NeverMoreThanTwoPacketsAhead | client/packages/flutter_webrtc_yappa/windows/application_loopback_capturer.cc:627-638 | under a clock that does not go back, the frames delivered never exceed the frames due by more than two packets |
| Jitter.StartsFilled | client/packages/flutter_webrtc_yappa/windows/application_loopback_capturer.cc:658-670 | nothing is delivered before 160 ms are buffered, and the drift clock starts then |
| JitterRing.Ring.PushOne | client/packages/flutter_webrtc_yappa/windows/application_loopback_capturer.cc:507-523 | one frame into the ring; write stays (read + avail) mod capacity |
| JitterRing.Ring.Push | client/packages/flutter_webrtc_yappa/windows/application_loopback_capturer.cc:505-524 | one packet |
| JitterRing.Ring.Trim | client/packages/flutter_webrtc_yappa/windows/application_loopback_capturer.cc:646-656 | drops the oldest frames above the cap |
| JitterRing.Ring.Consume | client/packages/flutter_webrtc_yappa/windows/application_loopback_capturer.cc:674-691 | takes the next 10 ms out of the ring |
| JitterRing.Ring.Tick | client/packages/flutter_webrtc_yappa/windows/application_loopback_capturer.cc:621-709 | outcome and new state of one tick |
| JitterExact.PushedExactly | client/packages/flutter_webrtc_yappa/windows/application_loopback_capturer.cc:505-524 | a packet leaves the last half second of what was buffered and captured; what no longer fits is overwritten |
| JitterExact.WaitsExactly | client/packages/flutter_webrtc_yappa/windows/application_loopback_capturer.cc:621-664 | a tick is skipped if and only if more is delivered than due and 10 ms, waits if and only if playing has not begun and less than 160 ms are buffered, and then changes nothing |
| JitterExact.PlaysExactly | client/packages/flutter_webrtc_yappa/windows/application_loopback_capturer.cc:646-709 | any other tick plays the next 10 ms of the last 200 ms buffered, or what is there of them, with silence behind; the whole new state |
| JitterExact.EverythingIsHeard | client/packages/flutter_webrtc_yappa/windows/application_loopback_capturer.cc:505-709 | for every interleaving in which nothing is overwritten, trimmed or taken without an audio source, what is heard without the silence is what was captured, from its beginning and but for what is still buffered |
| Limiter.PurgingIsUnobservable | server/src/server.js:347-353 | under a clock that does not go back, every decision is the same for any two schedules of purges |
| Limiter.SlidingBound | server/src/server.js:321-345 | in any half-open interval as long as the window at most 2 * max - 1 requests of a key pass |
| Limiter.SlidingBoundIsReached | server/src/server.js:321-345 | a run in which that many pass |
| Limiter.OneWindow | server/src/server.js:321-328 | within one window what passes and what was counted before stay within max |
| Limiter.RateLimiter.Allow | server/src/server.js:314-357 | counts a request in the open window or a new one and decides, for either place of the purge |
| AuthBackoff.DelaysGrow | server/src/server.js:529-533 | the delay starts behind the free failures, doubles up to the maximum and is monotone in the failures |
| AuthBackoff.DroppedAfterItsBlock | server/src/server.js:510-513 | an entry old enough to be dropped blocks nobody any more |
| AuthBackoff.WaitIsEnough | server/src/server.js:514-517 | retryAfter is the number of seconds after which the login is let through, rounded up |
| AuthBackoff.PurgingIsUnobservable | server/src/server.js:540-546 | under a clock that does not go back, waits and failure counts are the same for any two schedules of purges |
| AuthBackoff.RowCounts | server/src/server.js:525-539 | in a row of failures without a gap of a reset period every one counts, whatever other users do and whenever the table is purged |
| AuthBackoff.Failed.GetAuthBackoff | server/src/server.js:505-518 | the wait of a user, dropping a stale entry |
| AuthBackoff.Failed.RecordAuthFailure | server/src/server.js:520-551 | counts a failure and sets the block |
| LanRelay.AnswersReachTheAsker | server/src/lan-discovery-relay.js:62-93 | an answer goes to the address whose request with that nonce was forwarded less than five seconds ago and not answered since |
| LanRelay.RelayIsLimiter | server/src/lan-discovery-relay.js:71-102 | the relay forwards exactly what a window limiter of 30 per minute passes, on the private requests with a nonce that is not waiting |
| LanRelay.AtMost59PerMinute | server/src/lan-discovery-relay.js:72-79 | under a clock that does not go back, at most 59 requests of an address are forwarded in any half-open minute |
| LanRelay.PurgeShowsOnlyInReusedNonces | server/src/lan-discovery-relay.js:71-102 | at one instant a purge changes no answer, and a forwarding decision if and only if the request reuses an expired nonce |
| LanRelayPurges.PurgesShowOnlyInReusedNonces | server/src/lan-discovery-relay.js:71-102 | under a clock that does not go back, a run decides the same for all schedules of purges if and only if no request within its rate reuses an expired nonce |
| LanRelayPurges.ReuseAfterFiveSeconds | server/src/lan-discovery-relay.js:71-102 | a client that asks twice with one nonce, five seconds apart: its second request is forwarded with a purge in between and dropped without |
| LanRelayPurges.OwnPurgesUnseen | server/src/lan-discovery-relay.js:84-99 | without such a request the relay with its own purges decides everything as one that never purges |
| LimitExact.PassesByTimes | server/src/server.js:314-345 | under a clock that does not go back, and however it is purged, a limiter passes a request if and only if fewer than max came since the request that opened the present window, or it opens a new one |
| BackoffExact.FirstDelay | server/src/server.js:529-533 | no delay for the free failures, then the base, then twice the one before up to the maximum |
| BackoffExact.FailedExactly | server/src/server.js:520-539 | a failure counts on within a reset period, else from 1, and blocks from its own time |
| RelayExact.ForwardedExactly | server/src/lan-discovery-relay.js:71-102 | after any requests one is forwarded if and only if its client is private, its nonce is not in the table, and its address has room by the times of its requests |
| RelayExact.AnswerArrives | server/src/lan-discovery-relay.js:62-102 | the first answer to a forwarded request reaches its address within five seconds, whatever else is asked, answered and purged in between; a second one reaches nobody |
| LanRelay.Relay.FromClient | server/src/lan-discovery-relay.js:71-103 | forwards a private client's fresh nonce within its rate |
| LanRelay.Relay.FromBackend | server/src/lan-discovery-relay.js:63-69 | returns each unexpired nonce to its client once |

## Left out

- OpenMLS internals: a group is its list of merged commits, and a commit is accepted by exactly the groups it was made for; the members of a group, which packages can be added, which members removed and which Welcomes open are uninterpreted functions, and its other failures are left out.
- OpenMLS storage: that its values determine the groups, used-up secrets and signer of a device is an assumption of the restart theorems (`Restarts.Faithful`), which `VaultExample.TheVaultIsFaithful` shows can be met.
- Cryptography: AES-GCM is a container that opens only under its key and context, signatures and digests are booleans, SHA-256 is injective; HMAC-SHA256 is any function; what OpenMLS opens and seals is an uninterpreted function, and processing a message is taken to use up its secret also when the content is then refused.
- Files in the agreement model: a saved state is the group together with the operation id and the outcome its caller remembers; how a state becomes a file, and what a restart does to the other state of a device, is proved in `restart_theorems.dfy`.
- Clients outside the caller contract: other clients may do anything except submit commits or Welcomes to the channel whose agreement is proved.
- Request validation: regular expressions other than that of a cursor, base64, header parsing, HTTP status codes and the Socket.IO transport.
- Random identifiers: delivery messages are keyed by channel and server sequence; a transfer or package id is given by the request.
- Encrypted attachment upload: only the row it leaves; hashing, quotas, files and the content of sweeps are left out.
- Media rooms: device and ban rows are fixed, sockets keep their device, and `emitPresence`, voice state and signalling are left out.
- History listing: the GET that lists up to 20 ready transfers.
- Device credential listing and the key-package count endpoint, which only read.
- Cursor payloads: their JSON and base64url are an encoder and a parser that undoes it.
- Message rows of the pagination model have no content; edits do not change what is listed.
- Standard codec maps: entries stand in the order of std::map, and keys are compared byte by byte; that order itself, NaN keys, and 0.0 and -0.0, which are one key for std::map and two in the model, are not modelled.
- CodecStreams.WriteValue: a custom value, at which the writer stops when assertions are on.
- Loopback capturer: WASAPI, COM, sample conversion and timers; elapsed time is exact where the source uses doubles.
- JitterRing.Ring.Push: frames at a rate below 50 Hz, at which the ring has no slot and the source divides by zero.
- JitterRing.Ring.PushOne: the same.
- Limiter.RateLimiter.Allow: the response headers are left out.
- Session expiry, rebinding of sessions to devices, link previews, branding, settings, storage capacity, FFI and all other plugin code.
